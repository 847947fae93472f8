/**
 The two deduplication passes of the changelog generator: entries equal up to case, then entries
 that another entry repeats with a pull request link at its end.
 */
module ChangelogDedup {
  import opened Prelude

  /** A commit subject under its key in the PHP array; removals leave gaps in the keys. */
  datatype Entry = Entry(key: nat, text: string)

  /** Keys in strictly increasing order: together with membership this pins a list down. */
  ghost predicate Ordered(xs: seq<Entry>) {
    forall i, j :: 0 <= i < j < |xs| ==> xs[i].key < xs[j].key
  }

  ghost predicate Distinct(xs: seq<Entry>) {
    forall i, j :: 0 <= i < j < |xs| ==> xs[i].text != xs[j].text
  }

  // ---------------------------------------------------------------- case

  /** Two texts are the same in lower case when they differ in the case of ASCII letters only. */
  lemma SameUpToCase(a: string, b: string)
    ensures Lower(a) == Lower(b) <==>
            && |a| == |b|
            && forall i :: 0 <= i < |a| ==>
                 || a[i] == b[i]
                 || ('A' <= a[i] <= 'Z' && b[i] as int == a[i] as int + 32)
                 || ('A' <= b[i] <= 'Z' && a[i] as int == b[i] as int + 32)
  {
    assert |a| == |b| ==>
        forall i :: 0 <= i < |a| ==> (Lower(a)[i] == Lower(b)[i] <==> LowerChar(a[i]) == LowerChar(b[i]));
    if Lower(a) == Lower(b) {
      assert |a| == |Lower(a)| == |b|;
      forall i | 0 <= i < |a| ensures LowerChar(a[i]) == LowerChar(b[i]) { assert Lower(a)[i] == Lower(b)[i]; }
    }
  }

  predicate Repeats(lines: seq<string>, i: nat)
    requires i < |lines|
  {
    exists j :: 0 <= j < i && Lower(lines[j]) == Lower(lines[i])
  }

  /** array_intersect_key with the keys that array_unique keeps of the lower-cased lines. */
  function CaseDedup(lines: seq<string>): seq<Entry> {
    if lines == [] then []
    else
      var n := |lines| - 1;
      CaseDedup(lines[..n]) + (if Repeats(lines, n) then [] else [Entry(n, lines[n])])
  }

  lemma RepeatsInPrefix(lines: seq<string>, n: nat, i: nat)
    requires i < n <= |lines|
    ensures Repeats(lines[..n], i) <==> Repeats(lines, i)
  {}

  /** The first line of each case-insensitive class is kept, in order, and nothing else. */
  lemma {:induction false} CaseDedupKeepsFirsts(lines: seq<string>)
    ensures Ordered(CaseDedup(lines))
    ensures forall e :: e in CaseDedup(lines) <==> e.key < |lines| && lines[e.key] == e.text && !Repeats(lines, e.key)
    decreases |lines|
  {
    if lines != [] {
      var n := |lines| - 1;
      var kept := CaseDedup(lines[..n]);
      var last := if Repeats(lines, n) then [] else [Entry(n, lines[n])];
      CaseDedupKeepsFirsts(lines[..n]);
      assert CaseDedup(lines) == kept + last;
      forall e: Entry
        ensures e in kept + last <==> e.key < |lines| && lines[e.key] == e.text && !Repeats(lines, e.key)
      {
        assert e in kept + last <==> e in kept || e in last;
        if e.key < n {
          RepeatsInPrefix(lines, n, e.key);
        }
      }
      forall i, j | 0 <= i < j < |kept + last| ensures (kept + last)[i].key < (kept + last)[j].key {
        assert kept[i] in kept;
      }
    }
  }

  /** No two kept lines are equal up to case, and every line has a kept one equal to it up to case. */
  lemma CaseDedupIsExact(lines: seq<string>)
    ensures forall a, b :: a in CaseDedup(lines) && b in CaseDedup(lines) && a != b ==> Lower(a.text) != Lower(b.text)
    ensures forall i :: 0 <= i < |lines| ==> exists e :: e in CaseDedup(lines) && Lower(e.text) == Lower(lines[i])
    ensures Distinct(CaseDedup(lines))
  {
    CaseDedupKeepsFirsts(lines);
    var xs := CaseDedup(lines);
    forall a, b | a in xs && b in xs && a != b ensures Lower(a.text) != Lower(b.text) {
      assert lines[a.key] == a.text && lines[b.key] == b.text && a.key != b.key;
      assert a.key < b.key ==> Lower(lines[a.key]) != Lower(lines[b.key]);
      assert b.key < a.key ==> Lower(lines[b.key]) != Lower(lines[a.key]);
    }
    forall i | 0 <= i < |lines| ensures exists e :: e in xs && Lower(e.text) == Lower(lines[i]) {
      FirstOfItsCase(lines, i);
    }
    forall i, j | 0 <= i < j < |xs| ensures xs[i].text != xs[j].text {
      assert xs[i] in xs && xs[j] in xs && xs[i].key < xs[j].key;
    }
  }

  lemma FirstOfItsCase(lines: seq<string>, i: nat)
    requires i < |lines|
    ensures exists e :: e in CaseDedup(lines) && Lower(e.text) == Lower(lines[i])
  {
    CaseDedupKeepsFirsts(lines);
    if Repeats(lines, i) {
      var j :| 0 <= j < i && Lower(lines[j]) == Lower(lines[i]);
      FirstOfItsCase(lines, j);
    } else {
      assert Entry(i, lines[i]) in CaseDedup(lines);
    }
  }

  // ---------------------------------------------------------------- pull request links

  predicate Digit(c: char) {
    '0' <= c <= '9'
  }

  /** A space and a number sign with digits in parentheses. */
  predicate IsLink(t: string) {
    && |t| >= 5 && t[0] == ' ' && t[1] == '(' && t[2] == '#' && t[|t| - 1] == ')'
    && forall k :: 3 <= k < |t| - 1 ==> Digit(t[k])
  }

  /** A link, spelled out. */
  lemma LinkSpelled(t: string)
    ensures IsLink(t) <==>
            exists ds: string ::
              ds != "" && (forall k :: 0 <= k < |ds| ==> ds[k] in "0123456789") && t == " (#" + ds + ")"
  {
    if IsLink(t) {
      var ds := t[3..|t| - 1];
      assert forall k :: 0 <= k < |ds| ==> ds[k] == t[k + 3];
      forall k | 0 <= k < |ds| ensures ds[k] in "0123456789" { DigitSpelled(ds[k]); }
      assert t == " (#" + ds + ")";
    }
    if ds: string :| ds != "" && (forall k :: 0 <= k < |ds| ==> ds[k] in "0123456789") && t == " (#" + ds + ")" {
      forall k | 3 <= k < |t| - 1 ensures Digit(t[k]) {
        assert t[k] == ds[k - 3];
        DigitSpelled(ds[k - 3]);
      }
    }
  }

  lemma DigitSpelled(c: char)
    ensures Digit(c) <==> c in "0123456789"
  {}

  function LinkFrom(s: string, k: nat): Option<nat>
    requires k <= |s|
    decreases |s| - k
  {
    if IsLink(s[k..]) then Some(k)
    else if k == |s| then None
    else LinkFrom(s, k + 1)
  }

  /** The entry without the link at its end, if it has one; only one link is taken off. */
  function Strip(s: string): string {
    match LinkFrom(s, 0)
    case Some(k) => if k <= |s| then s[..k] else s
    case None => s
  }

  predicate Linked(s: string) {
    Strip(s) != s
  }

  lemma LinkFromFinds(s: string, k: nat)
    requires k <= |s|
    ensures var r := LinkFrom(s, k);
            && (r.Some? ==> k <= r.value <= |s| && IsLink(s[r.value..]))
            && (forall j :: k <= j <= |s| && IsLink(s[j..]) ==> r.Some? && r.value <= j)
    decreases |s| - k
  {
    if !IsLink(s[k..]) && k < |s| {
      LinkFromFinds(s, k + 1);
    }
  }

  /** Inside a link no other link starts. */
  lemma OneLinkOnly(s: string, j: nat, k: nat)
    requires j < k <= |s| && IsLink(s[j..])
    ensures !IsLink(s[k..])
  {}

  /** An entry has a link exactly when it is its stripped form and a link; nothing else can be its stripped form. */
  lemma StripTakesOneLink(s: string, base: string)
    ensures Linked(s) && Strip(s) == base <==> base <= s && IsLink(s[|base|..])
    ensures Linked(s) ==> |Strip(s)| < |s|
  {
    LinkFromFinds(s, 0);
    var r := LinkFrom(s, 0);
    if r.Some? {
      forall k | r.value < k <= |s| ensures !IsLink(s[k..]) {
        OneLinkOnly(s, r.value, k);
      }
    }
  }

  /** Some entry of `xs` is this text with a link. */
  ghost predicate Condemned(xs: seq<Entry>, text: string) {
    exists o :: o in xs && Linked(o.text) && Strip(o.text) == text
  }

  lemma WithoutAtStaysOrdered(xs: seq<Entry>, k: nat)
    requires Ordered(xs) && Distinct(xs) && k < |xs|
    ensures Ordered(xs[..k] + xs[k + 1..]) && Distinct(xs[..k] + xs[k + 1..])
  {}

  lemma WithoutAt(xs: seq<Entry>, k: nat, e: Entry)
    requires Distinct(xs) && k < |xs|
    ensures e in xs[..k] + xs[k + 1..] <==> e in xs && e.text != xs[k].text
  {}

  /** The inner loop: remove the first entry with this text. */
  method RemoveFirst(changelog: seq<Entry>, text: string) returns (r: seq<Entry>)
    requires Ordered(changelog) && Distinct(changelog)
    ensures Ordered(r) && Distinct(r)
    ensures forall e :: e in r <==> e in changelog && e.text != text
  {
    for k := 0 to |changelog|
      invariant forall i :: 0 <= i < k ==> changelog[i].text != text
    {
      if text == changelog[k].text {
        WithoutAtStaysOrdered(changelog, k);
        r := changelog[..k] + changelog[k + 1..];
        forall e ensures e in r <==> e in changelog && e.text != text { WithoutAt(changelog, k, e); }
        return r;
      }
    }
    return changelog;
  }

  /** The nested loops. The outer one walks the list as it was, removed entries included. */
  method RemoveLinkless(xs: seq<Entry>) returns (changelog: seq<Entry>)
    requires Ordered(xs) && Distinct(xs)
    ensures Ordered(changelog) && Distinct(changelog)
    ensures forall e :: e in changelog <==> e in xs && !Condemned(xs, e.text)
  {
    changelog := xs;
    for i := 0 to |xs|
      invariant Ordered(changelog) && Distinct(changelog)
      invariant forall e :: e in changelog <==> e in xs && !Condemned(xs[..i], e.text)
    {
      var item := xs[i].text;
      var entryWithoutPrLink := Strip(item);
      CondemnedOnePast(xs, i);
      if entryWithoutPrLink != item {
        changelog := RemoveFirst(changelog, entryWithoutPrLink);
      }
    }
    assert xs[..|xs|] == xs;
  }

  lemma CondemnedOnePast(xs: seq<Entry>, i: nat)
    requires i < |xs|
    ensures forall t: string :: Condemned(xs[..i + 1], t) <==>
              (Condemned(xs[..i], t) || (Linked(xs[i].text) && Strip(xs[i].text) == t))
  {
    assert xs[..i + 1] == xs[..i] + [xs[i]];
    forall t: string | Condemned(xs[..i], t) ensures Condemned(xs[..i + 1], t) {
      var o :| o in xs[..i] && Linked(o.text) && Strip(o.text) == t;
      assert o in xs[..i + 1];
    }
    assert xs[i] in xs[..i + 1];
  }

  /** Both passes over the commit subjects. */
  method Dedup(lines: seq<string>) returns (changelog: seq<Entry>)
    ensures Ordered(changelog)
    ensures forall e :: e in changelog <==> e in CaseDedup(lines) && !Condemned(CaseDedup(lines), e.text)
  {
    CaseDedupKeepsFirsts(lines);
    CaseDedupIsExact(lines);
    changelog := RemoveLinkless(CaseDedup(lines));
  }

  // ---------------------------------------------------------------- what survives

  ghost predicate Survives(xs: seq<Entry>, e: Entry) {
    e in xs && !Condemned(xs, e.text)
  }

  /** `big` is `small` with one or more links. */
  ghost predicate Extends(big: string, small: string)
    decreases |big|
  {
    StripTakesOneLink(big, "");
    Linked(big) && (Strip(big) == small || Extends(Strip(big), small))
  }

  lemma {:induction false} ExtendsTransitive(a: string, b: string, c: string)
    requires Extends(a, b) && Extends(b, c)
    ensures Extends(a, c)
    decreases |a|
  {
    StripTakesOneLink(a, Strip(a));
    if Strip(a) != b {
      ExtendsTransitive(Strip(a), b, c);
    }
  }

  /** One or more links in a row. */
  ghost predicate Links(t: string)
    decreases |t|
  {
    IsLink(t) || exists k :: 0 < k < |t| && IsLink(t[k..]) && Links(t[..k])
  }

  lemma {:induction false} ExtendsAddsLinks(big: string, small: string)
    requires Extends(big, small)
    ensures small <= big && Links(big[|small|..])
    decreases |big|
  {
    StripTakesOneLink(big, Strip(big));
    if Strip(big) != small {
      ExtendsAddsLinks(Strip(big), small);
      var tail := big[|small|..];
      var k := |Strip(big)| - |small|;
      assert tail[k..] == big[|Strip(big)|..];
      assert tail[..k] == Strip(big)[|small|..];
    }
  }

  function MaxLength(xs: seq<Entry>): (n: nat)
    ensures forall e :: e in xs ==> |e.text| <= n
  {
    if xs == [] then 0
    else
      var rest := MaxLength(xs[..|xs| - 1]);
      if rest < |xs[|xs| - 1].text| then |xs[|xs| - 1].text| else rest
  }

  /**
   Every removed entry has a survivor that says the same with one or more links: the chain of
   condemning entries gets longer and must end.
   */
  lemma RemovedHasSurvivor(xs: seq<Entry>, e: Entry) returns (s: Entry)
    requires e in xs && !Survives(xs, e)
    ensures Survives(xs, s) && Extends(s.text, e.text)
    decreases MaxLength(xs) - |e.text|
  {
    var o :| o in xs && Linked(o.text) && Strip(o.text) == e.text;
    StripTakesOneLink(o.text, e.text);
    assert Extends(o.text, e.text);
    if Survives(xs, o) {
      s := o;
    } else {
      s := RemovedHasSurvivor(xs, o);
      ExtendsTransitive(s.text, o.text, e.text);
    }
  }

  /** Nothing is lost: each commit subject is still there, up to case and up to links at its end. */
  lemma EverySubjectSurvives(lines: seq<string>, i: nat) returns (s: Entry, first: Entry)
    requires i < |lines|
    ensures Survives(CaseDedup(lines), s) && first in CaseDedup(lines)
    ensures Lower(first.text) == Lower(lines[i]) && (s == first || Extends(s.text, first.text))
  {
    FirstOfItsCase(lines, i);
    first :| first in CaseDedup(lines) && Lower(first.text) == Lower(lines[i]);
    if Survives(CaseDedup(lines), first) {
      s := first;
    } else {
      s := RemovedHasSurvivor(CaseDedup(lines), first);
    }
  }
}
