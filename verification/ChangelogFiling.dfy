/**
 How the changelog generator files commits under headings and, inside a heading, under scopes.

 A heading is a PHP array that mixes plain entries, which take the next free integer key, with
 groups keyed by scope. A scope made of digits becomes an integer key too, and may meet a plain
 entry there; appending to a string is a fatal error in PHP.
 */
module ChangelogFiling {
  import opened Prelude
  import opened ChangelogDedup

  datatype Heading =
    | Breaking | Features | BugFixes | Performance | Refactoring | Testing
    | BuildCI | Documentation | Style | Chore | Misc

  const CATEGORIES: seq<(string, Heading)> := [
    ("break", Breaking), ("breaking", Breaking),
    ("feat", Features), ("feature", Features), ("add", Features), ("added", Features),
    ("fix", BugFixes), ("bug", BugFixes), ("bugfix", BugFixes), ("fixed", BugFixes), ("fixes", BugFixes),
    ("perf", Performance), ("performance", Performance),
    ("impro", Refactoring), ("improved", Refactoring), ("improvement", Refactoring), ("refactor", Refactoring),
    ("refactored", Refactoring), ("refactoring", Refactoring), ("deprecated", Refactoring),
    ("deprecate", Refactoring), ("remove", Refactoring), ("change", Refactoring), ("changed", Refactoring),
    ("test", Testing), ("tests", Testing), ("testing", Testing),
    ("ci", BuildCI), ("build", BuildCI),
    ("docs", Documentation), ("documentation", Documentation),
    ("style", Style), ("chore", Chore),
    ("misc", Misc), ("update", Misc), ("updated", Misc)]

  datatype Tag = Tag(category: string, scope: Option<string>)

  /** A leading category section: its tags, of which there is at least one, and the text after it. */
  datatype Section = Section(first: Tag, others: seq<Tag>, rest: string)

  /** A commit subject after the wording fixes, with the category section found in it. */
  datatype Commit = Commit(text: string, section: Option<Section>)

  /** One entry to be listed. */
  datatype Filing = Filing(heading: Heading, scope: Option<string>, text: string)

  // ---------------------------------------------------------------- rules

  /** isset($categories[$name]) and the heading it gives. */
  function Category(cats: seq<(string, Heading)>, name: string): Option<Heading> {
    if cats == [] then None
    else if cats[0].0 == name then Some(cats[0].1)
    else Category(cats[1..], name)
  }

  predicate StartsFolded(text: string, prefix: string) {
    |prefix| <= |text| && Lower(text[..|prefix|]) == prefix
  }

  predicate VersionBump(text: string) {
    StartsFolded(text, "bump") || StartsFolded(text, "version bump")
  }

  predicate MergeCommit(text: string) {
    "Merge branch " <= text || "Merge pull request " <= text || "Merge remote-tracking branch " <= text
  }

  /** Unsectioned commits that are left out on purpose. */
  predicate Ignored(text: string) {
    ' ' !in text || MergeCommit(text) || VersionBump(text)
  }

  /** The first category, in table order, that the text starts with as a word. */
  function Keyword(cats: seq<(string, Heading)>, text: string): Option<Heading> {
    if cats == [] then None
    else if StartsFolded(text, cats[0].0 + " ") then Some(cats[0].1)
    else Keyword(cats[1..], text)
  }

  predicate BreakingTag(cats: seq<(string, Heading)>, tag: Tag) {
    Category(cats, tag.category) == Some(Breaking)
  }

  function CountBreaking(cats: seq<(string, Heading)>, tags: seq<Tag>): nat {
    if tags == [] then 0
    else CountBreaking(cats, tags[..|tags| - 1]) + (if BreakingTag(cats, tags[|tags| - 1]) then 1 else 0)
  }

  /** The same entry under the breaking changes, once for each further tag that says so. */
  function Repeated(f: Filing, n: nat): seq<Filing> {
    seq(n, _ => f)
  }

  function OrMisc(h: Option<Heading>): Heading {
    if h.Some? then h.value else Misc
  }

  /** The one heading a commit is listed under, or none when a stated rule drops it. */
  function Primary(cats: seq<(string, Heading)>, c: Commit): Option<Filing> {
    if c.section.Some? then
      var s := c.section.value;
      if VersionBump(s.rest) then None
      else
        Some(Filing(OrMisc(Category(cats, s.first.category)), s.first.scope, s.rest))
    else if cats != [] && Ignored(c.text) then None
    else
      Some(Filing(OrMisc(Keyword(cats, c.text)), None, c.text))
  }

  /** All filings of a commit: the breaking repeats first, carrying the first tag's scope, then the primary one. */
  function FilingsOf(cats: seq<(string, Heading)>, c: Commit): seq<Filing> {
    (if c.section.Some?
     then Repeated(Filing(Breaking, c.section.value.first.scope, c.section.value.rest),
         CountBreaking(cats, c.section.value.others))
     else [])
    + (match Primary(cats, c) case Some(f) => [f] case None => [])
  }

  // ---------------------------------------------------------------- the rules, spelled out

  /** The text begins with the word, in any case, and a space. */
  ghost predicate BeginsWithWord(text: string, word: string) {
    |word| < |text| && Lower(text[..|word|]) == word && text[|word|] == ' '
  }

  /** "bump" or "version bump" at the start, in any case. */
  ghost predicate Bumps(text: string) {
    (|text| >= 4 && Lower(text[..4]) == "bump") || (|text| >= 12 && Lower(text[..12]) == "version bump")
  }

  /** One word, a merge, or a version bump. */
  ghost predicate Unlisted(text: string) {
    || (forall i :: 0 <= i < |text| ==> text[i] != ' ')
    || (|text| >= 13 && text[..13] == "Merge branch ")
    || (|text| >= 19 && text[..19] == "Merge pull request ")
    || (|text| >= 29 && text[..29] == "Merge remote-tracking branch ")
    || Bumps(text)
  }

  /** Entry `i` is the first of the table with this name. */
  ghost predicate FirstNamed(cats: seq<(string, Heading)>, name: string, i: nat) {
    i < |cats| && cats[i].0 == name && forall j :: 0 <= j < i ==> cats[j].0 != name
  }

  /** Entry `i` is the first of the table whose name the text begins with. */
  ghost predicate FirstBegun(cats: seq<(string, Heading)>, text: string, i: nat) {
    i < |cats| && BeginsWithWord(text, cats[i].0) && forall j :: 0 <= j < i ==> !BeginsWithWord(text, cats[j].0)
  }

  lemma {:induction false} CategoryIsFirstNamed(cats: seq<(string, Heading)>, name: string)
    ensures forall i: nat :: FirstNamed(cats, name, i) ==> Category(cats, name) == Some(cats[i].1)
    ensures (exists i: nat :: FirstNamed(cats, name, i))
            || (Category(cats, name).None? && forall i :: 0 <= i < |cats| ==> cats[i].0 != name)
  {
    if cats != [] {
      var rest := cats[1..];
      CategoryIsFirstNamed(rest, name);
      assert forall i :: 0 < i < |cats| ==> cats[i] == rest[i - 1];
      if cats[0].0 == name {
        assert FirstNamed(cats, name, 0);
      } else {
        forall i: nat | FirstNamed(cats, name, i) ensures Category(cats, name) == Some(cats[i].1) {
          assert FirstNamed(rest, name, i - 1);
        }
        if i: nat :| FirstNamed(rest, name, i) { assert FirstNamed(cats, name, i + 1); }
      }
    }
  }

  lemma FoldedWord(text: string, word: string)
    ensures StartsFolded(text, word + " ") <==> BeginsWithWord(text, word)
  {
    if |word| < |text| {
      var n := |word|;
      assert Lower(text[..n + 1]) == Lower(text[..n]) + [LowerChar(text[n])];
      assert (word + " ")[..n] == word && (word + " ")[n] == ' ';
    }
  }

  lemma {:induction false} KeywordIsFirstBegun(cats: seq<(string, Heading)>, text: string)
    ensures forall i: nat :: FirstBegun(cats, text, i) ==> Keyword(cats, text) == Some(cats[i].1)
    ensures (exists i: nat :: FirstBegun(cats, text, i))
            || (Keyword(cats, text).None? && forall i :: 0 <= i < |cats| ==> !BeginsWithWord(text, cats[i].0))
  {
    if cats != [] {
      var rest := cats[1..];
      KeywordIsFirstBegun(rest, text);
      FoldedWord(text, cats[0].0);
      assert forall i :: 0 < i < |cats| ==> cats[i] == rest[i - 1];
      if BeginsWithWord(text, cats[0].0) {
        assert FirstBegun(cats, text, 0);
      } else {
        forall i: nat | FirstBegun(cats, text, i) ensures Keyword(cats, text) == Some(cats[i].1) {
          assert FirstBegun(rest, text, i - 1);
        }
        if i: nat :| FirstBegun(rest, text, i) { assert FirstBegun(cats, text, i + 1); }
      }
    }
  }

  lemma BumpSpelled(text: string)
    ensures VersionBump(text) <==> Bumps(text)
  {}

  lemma UnlistedSpelled(text: string)
    ensures Ignored(text) <==> Unlisted(text)
  {}

  /** The heading the table gives a name, Misc if it has none. */
  ghost predicate NamedHeading(cats: seq<(string, Heading)>, name: string, h: Heading) {
    && (forall i: nat :: FirstNamed(cats, name, i) ==> h == cats[i].1)
    && ((forall i :: 0 <= i < |cats| ==> cats[i].0 != name) ==> h == Misc)
  }

  /** The heading of the first entry whose name the text begins with, Misc if there is none. */
  ghost predicate BegunHeading(cats: seq<(string, Heading)>, text: string, h: Heading) {
    && (forall i: nat :: FirstBegun(cats, text, i) ==> h == cats[i].1)
    && ((forall i :: 0 <= i < |cats| ==> !BeginsWithWord(text, cats[i].0)) ==> h == Misc)
  }

  /** The further tags that say the change is breaking. */
  ghost function BreakingTags(cats: seq<(string, Heading)>, tags: seq<Tag>): set<nat> {
    set i: nat | i < |tags| && exists k: nat :: FirstNamed(cats, tags[i].category, k) && cats[k].1 == Breaking
  }

  lemma BreakingSpelled(cats: seq<(string, Heading)>, tag: Tag)
    ensures BreakingTag(cats, tag) <==> exists k: nat :: FirstNamed(cats, tag.category, k) && cats[k].1 == Breaking
  {
    CategoryIsFirstNamed(cats, tag.category);
  }

  lemma {:induction false} CountBreakingCounts(cats: seq<(string, Heading)>, tags: seq<Tag>)
    ensures CountBreaking(cats, tags) == |BreakingTags(cats, tags)|
    decreases |tags|
  {
    if tags != [] {
      var n := |tags| - 1;
      CountBreakingCounts(cats, tags[..n]);
      BreakingSpelled(cats, tags[n]);
      assert BreakingTags(cats, tags) == BreakingTags(cats, tags[..n]) + if BreakingTag(cats, tags[n]) then {n} else {};
    }
  }

  /**
   Each commit is filed once, unless it is a version bump or, without a section, one word or a merge:
   a sectioned one under its first tag's heading and scope, any other under the heading of the first
   category it begins with. Before that comes one breaking entry, with the same scope and text, for
   each further tag that says so.
   */
  lemma EachCommitIsFiled(cats: seq<(string, Heading)>, c: Commit)
    requires cats != []
    ensures var fs := FilingsOf(cats, c);
            match c.section
            case Some(s) =>
              var n := |BreakingTags(cats, s.others)|;
              && |fs| == n + (if Bumps(s.rest) then 0 else 1)
              && (forall i :: 0 <= i < n ==> fs[i] == Filing(Breaking, s.first.scope, s.rest))
              && (!Bumps(s.rest) ==>
                    && NamedHeading(cats, s.first.category, fs[n].heading)
                    && fs[n].scope == s.first.scope && fs[n].text == s.rest)
            case None =>
              && |fs| == (if Unlisted(c.text) then 0 else 1)
              && (!Unlisted(c.text) ==>
                    BegunHeading(cats, c.text, fs[0].heading) && fs[0].scope == None && fs[0].text == c.text)
  {
    match c.section
    case Some(s) =>
      BumpSpelled(s.rest);
      CountBreakingCounts(cats, s.others);
      CategoryIsFirstNamed(cats, s.first.category);
    case None =>
      UnlistedSpelled(c.text);
      KeywordIsFirstBegun(cats, c.text);
  }

  function AllFilings(cats: seq<(string, Heading)>, cs: seq<Commit>): seq<Filing> {
    if cs == [] then [] else AllFilings(cats, cs[..|cs| - 1]) + FilingsOf(cats, cs[|cs| - 1])
  }

  // ---------------------------------------------------------------- a heading as a PHP array

  datatype Key = Index(n: nat) | Name(s: string)

  datatype Slot = Plain(text: string) | Group(texts: seq<string>)

  /** The slots in order of insertion, and the next free integer key. */
  datatype Bucket = Bucket(slots: seq<(Key, Slot)>, next: nat)

  const EMPTY := Bucket([], 0)

  /** PHP's empty() on a scope: it then counts as no scope. */
  predicate NoScope(scope: Option<string>) {
    scope.None? || scope.value == "" || scope.value == "0"
  }

  predicate Numeric(s: string) {
    s != "" && s[0] != '0' && forall i :: 0 <= i < |s| ==> Digit(s[i])
  }

  function DigitValue(c: char): nat
    requires Digit(c)
  {
    (c - '0') as int
  }

  function Value(s: string): nat
    requires forall i :: 0 <= i < |s| ==> Digit(s[i])
  {
    if s == "" then 0 else 10 * Value(s[..|s| - 1]) + DigitValue(s[|s| - 1])
  }

  /** An array key written as a decimal integer is that integer. */
  function ScopeKey(scope: string): Key {
    if Numeric(scope) then Index(Value(scope)) else Name(scope)
  }

  /** A number as PHP writes it. */
  function Decimal(n: nat): string {
    if n < 10 then ["0123456789"[n]] else Decimal(n / 10) + ["0123456789"[n % 10]]
  }

  lemma DigitOf(d: nat)
    requires d < 10
    ensures Digit("0123456789"[d]) && DigitValue("0123456789"[d]) == d && ("0123456789"[d] == '0' <==> d == 0)
  {}

  lemma DigitBack(c: char)
    requires Digit(c)
    ensures DigitValue(c) < 10 && "0123456789"[DigitValue(c)] == c
  {}

  lemma {:induction false} DecimalIsNumeric(n: nat)
    requires n > 0
    ensures Numeric(Decimal(n)) && Value(Decimal(n)) == n
  {
    DigitOf(n % 10);
    if n < 10 {
      assert Decimal(n)[..0] == "";
    } else {
      DecimalIsNumeric(n / 10);
      var s := Decimal(n);
      assert s[..|s| - 1] == Decimal(n / 10) && s[|s| - 1] == "0123456789"[n % 10];
    }
  }

  lemma {:induction false} NumericIsDecimal(s: string)
    requires Numeric(s)
    ensures Value(s) > 0 && Decimal(Value(s)) == s
    decreases |s|
  {
    var before, c := s[..|s| - 1], s[|s| - 1];
    DigitBack(c);
    assert s == before + [c];
    if before == "" {
      assert Value(s) == DigitValue(c);
    } else {
      NumericIsDecimal(before);
      assert Value(s) / 10 == Value(before) && Value(s) % 10 == DigitValue(c);
    }
  }

  /** A scope that PHP would write a positive integer as is that integer key; any other is a key as it stands. */
  lemma ScopeKeySpelled(scope: string)
    ensures forall n: nat :: n > 0 && scope == Decimal(n) ==> ScopeKey(scope) == Index(n)
    ensures (forall n: nat :: n > 0 ==> scope != Decimal(n)) ==> ScopeKey(scope) == Name(scope)
  {
    forall n: nat | n > 0 && scope == Decimal(n) ensures ScopeKey(scope) == Index(n) { DecimalIsNumeric(n); }
    if Numeric(scope) { NumericIsDecimal(scope); }
  }

  function Find(slots: seq<(Key, Slot)>, k: Key): (r: Option<nat>)
    ensures r.Some? ==> r.value < |slots| && slots[r.value].0 == k && forall i :: 0 <= i < r.value ==> slots[i].0 != k
    ensures r.None? ==> forall i :: 0 <= i < |slots| ==> slots[i].0 != k
  {
    if slots == [] then None
    else if slots[0].0 == k then Some(0)
    else
      var r := Find(slots[1..], k);
      if r.Some? then
        assert forall i :: 1 <= i < |slots| ==> slots[i] == slots[1..][i - 1];
        Some(r.value + 1)
      else
        assert forall i :: 1 <= i < |slots| ==> slots[i] == slots[1..][i - 1];
        None
  }

  function Max(a: nat, b: nat): nat {
    if a < b then b else a
  }

  function AddPlain(b: Bucket, text: string): Bucket {
    Bucket(b.slots + [(Index(b.next), Plain(text))], b.next + 1)
  }

  /** The slots with one more text in the group at `i`. */
  function Grown(slots: seq<(Key, Slot)>, i: nat, text: string): seq<(Key, Slot)>
    requires i < |slots| && slots[i].1.Group?
  {
    slots[i := (slots[i].0, Group(slots[i].1.texts + [text]))]
  }

  /** No result: the slot holds a string and cannot be appended to. */
  function AddScoped(b: Bucket, k: Key, text: string): Option<Bucket> {
    match Find(b.slots, k)
    case None => Some(Bucket(b.slots + [(k, Group([text]))], if k.Index? then Max(b.next, k.n + 1) else b.next))
    case Some(i) =>
      if b.slots[i].1.Plain? then None
      else Some(b.(slots := Grown(b.slots, i, text)))
  }

  /** add_change */
  function Add(b: Bucket, scope: Option<string>, text: string): Option<Bucket> {
    if NoScope(scope) then Some(AddPlain(b, text)) else AddScoped(b, ScopeKey(scope.value), text)
  }

  function AddAll(fs: seq<Filing>): Option<Bucket> {
    if fs == [] then Some(EMPTY)
    else
      match AddAll(fs[..|fs| - 1])
      case None => None
      case Some(b) => Add(b, fs[|fs| - 1].scope, fs[|fs| - 1].text)
  }

  // ---------------------------------------------------------------- what a heading lists

  /** An entry as it will be printed: under a scope, or plainly. */
  datatype Item = Item(scope: Option<Key>, text: string)

  function ItemOf(f: Filing): Item {
    Item(if NoScope(f.scope) then None else Some(ScopeKey(f.scope.value)), f.text)
  }

  /** How an entry is printed: plainly without a scope or with one PHP calls empty, else under its scope as a key. */
  lemma ItemSpelled(f: Filing)
    ensures ItemOf(f).text == f.text
    ensures ItemOf(f).scope.None? <==> f.scope.None? || f.scope.value == "" || f.scope.value == "0"
    ensures forall n: nat :: n > 0 && f.scope == Some(Decimal(n)) ==> ItemOf(f).scope == Some(Index(n))
    ensures f.scope.Some? && f.scope.value != "" && f.scope.value != "0"
            && (forall n: nat :: n > 0 ==> f.scope.value != Decimal(n)) ==>
              ItemOf(f).scope == Some(Name(f.scope.value))
  {
    if f.scope.Some? { ScopeKeySpelled(f.scope.value); }
    forall n: nat | n > 0 ensures Decimal(n) != "" && Decimal(n) != "0" { DecimalIsNumeric(n); }
  }

  function GroupItems(k: Key, texts: seq<string>): seq<Item> {
    seq(|texts|, i requires 0 <= i < |texts| => Item(Some(k), texts[i]))
  }

  function SlotItems(k: Key, s: Slot): seq<Item> {
    match s
    case Plain(t) => [Item(None, t)]
    case Group(ts) => GroupItems(k, ts)
  }

  /** The nested output loop over a heading. */
  function Flatten(slots: seq<(Key, Slot)>): seq<Item> {
    if slots == [] then [] else Flatten(slots[..|slots| - 1]) + SlotItems(slots[|slots| - 1].0, slots[|slots| - 1].1)
  }

  function Items(fs: seq<Filing>): seq<Item> {
    seq(|fs|, i requires 0 <= i < |fs| => ItemOf(fs[i]))
  }

  /** The entries of one scope, in order. */
  function Under(xs: seq<Item>, k: Option<Key>): seq<string> {
    if xs == [] then []
    else Under(xs[..|xs| - 1], k) + (if xs[|xs| - 1].scope == k then [xs[|xs| - 1].text] else [])
  }

  lemma {:induction false} UnderJoins(xs: seq<Item>, ys: seq<Item>, k: Option<Key>)
    ensures Under(xs + ys, k) == Under(xs, k) + Under(ys, k)
    decreases |ys|
  {
    if ys == [] {
      assert xs + ys == xs;
    } else {
      assert (xs + ys)[..|xs + ys| - 1] == xs + ys[..|ys| - 1];
      UnderJoins(xs, ys[..|ys| - 1], k);
    }
  }

  lemma {:induction false} UnderGroup(k: Key, texts: seq<string>, q: Option<Key>)
    ensures Under(GroupItems(k, texts), q) == if q == Some(k) then texts else []
    decreases |texts|
  {
    if texts != [] {
      var shorter := texts[..|texts| - 1];
      assert GroupItems(k, texts)[..|texts| - 1] == GroupItems(k, shorter);
      UnderGroup(k, shorter, q);
    }
  }

  ghost function SlotUnder(k: Key, s: Slot, q: Option<Key>): seq<string> {
    match s
    case Plain(t) => if q == None then [t] else []
    case Group(ts) => if q == Some(k) then ts else []
  }

  /** What a heading lists under one scope, read off its slots. */
  ghost function Listed(slots: seq<(Key, Slot)>, q: Option<Key>): seq<string> {
    if slots == [] then []
    else Listed(slots[..|slots| - 1], q) + SlotUnder(slots[|slots| - 1].0, slots[|slots| - 1].1, q)
  }

  /** The output loop lists, under each scope, what the slots hold for it. */
  lemma {:induction false} FlattenLists(slots: seq<(Key, Slot)>, q: Option<Key>)
    ensures Under(Flatten(slots), q) == Listed(slots, q)
    decreases |slots|
  {
    if slots != [] {
      var n := |slots| - 1;
      var k, slot := slots[n].0, slots[n].1;
      FlattenLists(slots[..n], q);
      UnderJoins(Flatten(slots[..n]), SlotItems(k, slot), q);
      match slot
      case Plain(t) => assert Under([Item(None, t)], q) == SlotUnder(k, slot, q);
      case Group(ts) => UnderGroup(k, ts, q);
    }
  }

  ghost predicate KeysDistinct(slots: seq<(Key, Slot)>) {
    forall i, j :: 0 <= i < j < |slots| ==> slots[i].0 != slots[j].0
  }

  lemma ListedPush(slots: seq<(Key, Slot)>, k: Key, slot: Slot, q: Option<Key>)
    ensures Listed(slots + [(k, slot)], q) == Listed(slots, q) + SlotUnder(k, slot, q)
  {}

  lemma {:induction false} ListedJoins(a: seq<(Key, Slot)>, b: seq<(Key, Slot)>, q: Option<Key>)
    ensures Listed(a + b, q) == Listed(a, q) + Listed(b, q)
    decreases |b|
  {
    if b == [] {
      assert a + b == a;
    } else {
      assert (a + b)[..|a + b| - 1] == a + b[..|b| - 1];
      ListedJoins(a, b[..|b| - 1], q);
    }
  }

  lemma {:induction false} NothingListed(slots: seq<(Key, Slot)>, k: Key)
    requires forall i :: 0 <= i < |slots| ==> slots[i].0 != k
    ensures Listed(slots, Some(k)) == []
    decreases |slots|
  {
    if slots != [] {
      NothingListed(slots[..|slots| - 1], k);
    }
  }

  lemma AroundSlot(slots: seq<(Key, Slot)>, i: nat, q: Option<Key>)
    requires i < |slots|
    ensures Listed(slots, q)
         == Listed(slots[..i], q) + SlotUnder(slots[i].0, slots[i].1, q) + Listed(slots[i + 1..], q)
  {
    assert slots == slots[..i] + [slots[i]] + slots[i + 1..];
    ListedJoins(slots[..i] + [slots[i]], slots[i + 1..], q);
    ListedPush(slots[..i], slots[i].0, slots[i].1, q);
  }

  /** Appending to one group adds one entry there, and to no other scope. */
  lemma GroupGrows(slots: seq<(Key, Slot)>, i: nat, text: string, q: Option<Key>)
    requires i < |slots| && slots[i].1.Group? && KeysDistinct(slots)
    ensures Listed(Grown(slots, i, text), q) == Listed(slots, q) + (if q == Some(slots[i].0) then [text] else [])
  {
    var grown := Grown(slots, i, text);
    AroundSlot(slots, i, q);
    AroundSlot(grown, i, q);
    assert grown[..i] == slots[..i] && grown[i + 1..] == slots[i + 1..];
    if q == Some(slots[i].0) {
      NothingListed(slots[i + 1..], slots[i].0);
    }
  }

  // ---------------------------------------------------------------- conservation within a heading

  /** The integer key the next plain entry will take, from the filings alone. */
  function NextIndex(fs: seq<Filing>): nat {
    if fs == [] then 0
    else
      var before, f := NextIndex(fs[..|fs| - 1]), fs[|fs| - 1];
      if NoScope(f.scope) then before + 1
      else
        match ScopeKey(f.scope.value)
        case Index(n) => Max(before, n + 1)
        case Name(_) => before
  }

  /** Filing `i` is plain and takes the integer key `n`. */
  ghost predicate PlainAt(fs: seq<Filing>, i: nat, n: nat) {
    i < |fs| && NoScope(fs[i].scope) && NextIndex(fs[..i]) == n
  }

  /** A later filing's numeric scope is the key an earlier plain entry has taken. */
  ghost predicate Collides(fs: seq<Filing>) {
    exists i: nat, j: nat ::
      i < j < |fs| && !NoScope(fs[j].scope) && ScopeKey(fs[j].scope.value).Index?
          && PlainAt(fs, i, ScopeKey(fs[j].scope.value).n)
  }

  /** Filing `i` takes or names the integer key `n`. */
  ghost predicate UsesIndex(fs: seq<Filing>, i: nat, n: nat) {
    && i < |fs|
    && if fs[i].scope.None? || fs[i].scope.value == "" || fs[i].scope.value == "0" then NextIndex(fs[..i]) == n
       else n > 0 && fs[i].scope.value == Decimal(n)
  }

  lemma UsesIndexOnePast(fs: seq<Filing>, f: Filing, i: nat, n: nat)
    requires i < |fs|
    ensures UsesIndex(fs + [f], i, n) <==> UsesIndex(fs, i, n)
  {
    assert (fs + [f])[..i] == fs[..i] && (fs + [f])[i] == fs[i];
  }

  /** The next plain entry takes 0 if no integer key is in use, and otherwise one more than the largest. */
  lemma {:induction false} NextIndexIsNext(fs: seq<Filing>)
    ensures forall i: nat, n: nat :: UsesIndex(fs, i, n) ==> n < NextIndex(fs)
    ensures NextIndex(fs) > 0 ==> exists i: nat, n: nat :: UsesIndex(fs, i, n) && n + 1 == NextIndex(fs)
    decreases |fs|
  {
    if fs != [] {
      var before, f := fs[..|fs| - 1], fs[|fs| - 1];
      assert fs == before + [f];
      NextIndexIsNext(before);
      if !NoScope(f.scope) { ScopeKeySpelled(f.scope.value); NumericOrName(f.scope.value); }
      forall i: nat, n: nat | UsesIndex(fs, i, n) ensures n < NextIndex(fs) {
        if i < |before| { UsesIndexOnePast(before, f, i, n); } else { assert fs[..i] == before; }
      }
      if NextIndex(fs) == NextIndex(before) {
        if NextIndex(fs) > 0 {
          var i: nat, n: nat :| UsesIndex(before, i, n) && n + 1 == NextIndex(fs);
          UsesIndexOnePast(before, f, i, n);
        }
      } else {
        assert fs[..|before|] == before;
        assert UsesIndex(fs, |before|, NextIndex(fs) - 1);
      }
    }
  }

  lemma NumericOrName(scope: string)
    ensures ScopeKey(scope).Index? ==> ScopeKey(scope).n > 0 && scope == Decimal(ScopeKey(scope).n)
  {
    if Numeric(scope) { NumericIsDecimal(scope); }
  }

  lemma PlainAtOnePast(fs: seq<Filing>, f: Filing, i: nat, n: nat)
    ensures PlainAt(fs + [f], i, n) <==>
            PlainAt(fs, i, n) || (i == |fs| && NoScope(f.scope) && NextIndex(fs) == n)
  {
    assert (fs + [f])[..|fs|] == fs;
    if i < |fs| { assert (fs + [f])[..i] == fs[..i]; }
  }

  /** Filing `f` would append to a plain entry. */
  ghost predicate HitsPlain(fs: seq<Filing>, f: Filing) {
    !NoScope(f.scope) && ScopeKey(f.scope.value).Index? && exists i: nat :: PlainAt(fs, i, ScopeKey(f.scope.value).n)
  }

  lemma CollidesOnePast(fs: seq<Filing>, f: Filing)
    ensures Collides(fs + [f]) <==> Collides(fs) || HitsPlain(fs, f)
  {
    var longer := fs + [f];
    assert forall j :: 0 <= j < |fs| ==> longer[j] == fs[j];
    assert longer[|fs|] == f;
    if Collides(fs) {
      var i: nat, j: nat :| i < j < |fs| && !NoScope(fs[j].scope) && ScopeKey(fs[j].scope.value).Index?
                            && PlainAt(fs, i, ScopeKey(fs[j].scope.value).n);
      PlainAtOnePast(fs, f, i, ScopeKey(fs[j].scope.value).n);
      assert longer[j] == fs[j];
    }
    if HitsPlain(fs, f) {
      var i: nat :| PlainAt(fs, i, ScopeKey(f.scope.value).n);
      PlainAtOnePast(fs, f, i, ScopeKey(f.scope.value).n);
      assert longer[|fs|] == f;
    }
    if Collides(longer) {
      var i: nat, j: nat :| i < j < |longer| && !NoScope(longer[j].scope) && ScopeKey(longer[j].scope.value).Index?
                            && PlainAt(longer, i, ScopeKey(longer[j].scope.value).n);
      PlainAtOnePast(fs, f, i, ScopeKey(longer[j].scope.value).n);
      assert PlainAt(fs, i, ScopeKey(longer[j].scope.value).n);
    }
  }

  ghost predicate Holds(b: Bucket, k: Key, plain: bool) {
    exists i :: 0 <= i < |b.slots| && b.slots[i].0 == k && b.slots[i].1.Plain? == plain
  }

  ghost predicate KeysFit(b: Bucket) {
    && KeysDistinct(b.slots)
    && (forall i :: 0 <= i < |b.slots| && b.slots[i].0.Index? ==> b.slots[i].0.n < b.next)
    && (forall i :: 0 <= i < |b.slots| && b.slots[i].1.Plain? ==> b.slots[i].0.Index?)
  }

  /** The integer keys of plain slots are those the plain filings took. */
  ghost predicate PlainsMatch(fs: seq<Filing>, b: Bucket) {
    forall n: nat :: Holds(b, Index(n), true) <==> exists i: nat :: PlainAt(fs, i, n)
  }

  /** What is known of a heading after some filings under it. */
  ghost predicate Faithful(fs: seq<Filing>, b: Bucket) {
    && b.next == NextIndex(fs)
    && KeysFit(b)
    && PlainsMatch(fs, b)
    && (forall q :: Listed(b.slots, q) == Under(Items(fs), q))
  }

  lemma ItemsOnePast(fs: seq<Filing>, f: Filing, q: Option<Key>)
    ensures Under(Items(fs + [f]), q) == Under(Items(fs), q) + (if ItemOf(f).scope == q then [f.text] else [])
  {
    assert Items(fs + [f])[..|fs|] == Items(fs);
  }

  lemma NextIndexOnePast(fs: seq<Filing>, f: Filing)
    ensures NextIndex(fs + [f]) ==
            if NoScope(f.scope) then NextIndex(fs) + 1
            else if ScopeKey(f.scope.value).Index? then Max(NextIndex(fs), ScopeKey(f.scope.value).n + 1)
            else NextIndex(fs)
  {}

  lemma PlainKeysOnePast(fs: seq<Filing>, f: Filing, n: nat)
    ensures (exists i: nat :: PlainAt(fs + [f], i, n)) <==>
            (exists i: nat :: PlainAt(fs, i, n)) || (NoScope(f.scope) && NextIndex(fs) == n)
  {
    if i: nat :| PlainAt(fs, i, n) { PlainAtOnePast(fs, f, i, n); }
    if i: nat :| PlainAt(fs + [f], i, n) { PlainAtOnePast(fs, f, i, n); }
    if NoScope(f.scope) && NextIndex(fs) == n { PlainAtOnePast(fs, f, |fs|, n); }
  }

  lemma PushHolds(b: Bucket, k: Key, slot: Slot, next: nat, k': Key, plain: bool)
    ensures Holds(Bucket(b.slots + [(k, slot)], next), k', plain) <==>
            Holds(b, k', plain) || (k == k' && slot.Plain? == plain)
  {
    var b' := Bucket(b.slots + [(k, slot)], next);
    if Holds(b, k', plain) {
      var i :| 0 <= i < |b.slots| && b.slots[i].0 == k' && b.slots[i].1.Plain? == plain;
      assert b'.slots[i] == b.slots[i];
    }
    if k == k' && slot.Plain? == plain { assert b'.slots[|b.slots|] == (k, slot); }
  }

  /** Keys stay distinct and below the next free one when a slot with a new key is added. */
  lemma PushKeepsKeys(b: Bucket, k: Key, slot: Slot, next: nat)
    requires KeysFit(b) && forall i :: 0 <= i < |b.slots| ==> b.slots[i].0 != k
    requires b.next <= next && (k.Index? ==> k.n < next) && (slot.Plain? ==> k.Index?)
    ensures KeysFit(Bucket(b.slots + [(k, slot)], next))
  {}

  lemma PlainKeepsPlains(fs: seq<Filing>, b: Bucket, f: Filing)
    requires PlainsMatch(fs, b) && b.next == NextIndex(fs) && NoScope(f.scope)
    ensures PlainsMatch(fs + [f], AddPlain(b, f.text))
  {
    forall n: nat ensures Holds(AddPlain(b, f.text), Index(n), true) <==> exists i: nat :: PlainAt(fs + [f], i, n) {
      PushHolds(b, Index(b.next), Plain(f.text), b.next + 1, Index(n), true);
      PlainKeysOnePast(fs, f, n);
    }
  }

  lemma PushLists(fs: seq<Filing>, slots: seq<(Key, Slot)>, f: Filing, k: Key, slot: Slot, q: Option<Key>)
    requires Listed(slots, q) == Under(Items(fs), q)
    requires SlotUnder(k, slot, q) == if ItemOf(f).scope == q then [f.text] else []
    ensures Listed(slots + [(k, slot)], q) == Under(Items(fs + [f]), q)
  {
    ListedPush(slots, k, slot, q);
    ItemsOnePast(fs, f, q);
  }

  lemma PlainStaysFaithful(fs: seq<Filing>, b: Bucket, f: Filing)
    requires Faithful(fs, b) && NoScope(f.scope)
    ensures Faithful(fs + [f], AddPlain(b, f.text))
  {
    NextIndexOnePast(fs, f);
    PushKeepsKeys(b, Index(b.next), Plain(f.text), b.next + 1);
    PlainKeepsPlains(fs, b, f);
    forall q ensures Listed(AddPlain(b, f.text).slots, q) == Under(Items(fs + [f]), q) {
      PushLists(fs, b.slots, f, Index(b.next), Plain(f.text), q);
    }
  }

  lemma NewGroupKeepsPlains(fs: seq<Filing>, b: Bucket, f: Filing, k: Key, next: nat)
    requires PlainsMatch(fs, b) && !NoScope(f.scope)
    ensures PlainsMatch(fs + [f], Bucket(b.slots + [(k, Group([f.text]))], next))
  {
    var b' := Bucket(b.slots + [(k, Group([f.text]))], next);
    forall n: nat ensures Holds(b', Index(n), true) <==> exists i: nat :: PlainAt(fs + [f], i, n) {
      PushHolds(b, k, Group([f.text]), next, Index(n), true);
      PlainKeysOnePast(fs, f, n);
    }
  }

  lemma NewGroupStaysFaithful(fs: seq<Filing>, b: Bucket, f: Filing)
    requires Faithful(fs, b) && !NoScope(f.scope) && Find(b.slots, ScopeKey(f.scope.value)).None?
    ensures var r := AddScoped(b, ScopeKey(f.scope.value), f.text); r.Some? && Faithful(fs + [f], r.value)
  {
    var k := ScopeKey(f.scope.value);
    var b' := AddScoped(b, k, f.text).value;
    NextIndexOnePast(fs, f);
    PushKeepsKeys(b, k, Group([f.text]), b'.next);
    NewGroupKeepsPlains(fs, b, f, k, b'.next);
    forall q ensures Listed(b'.slots, q) == Under(Items(fs + [f]), q) {
      PushLists(fs, b.slots, f, k, Group([f.text]), q);
    }
  }

  lemma GrownHolds(b: Bucket, i: nat, text: string, k: Key, plain: bool)
    requires i < |b.slots| && b.slots[i].1.Group?
    ensures Holds(b.(slots := Grown(b.slots, i, text)), k, plain) <==> Holds(b, k, plain)
  {
    var b' := b.(slots := Grown(b.slots, i, text));
    if j :| 0 <= j < |b.slots| && b.slots[j].0 == k && b.slots[j].1.Plain? == plain { assert b'.slots[j].0 == k; }
    if j :| 0 <= j < |b'.slots| && b'.slots[j].0 == k && b'.slots[j].1.Plain? == plain { assert b.slots[j].0 == k; }
  }

  lemma OldGroupKeepsPlains(fs: seq<Filing>, b: Bucket, f: Filing, at: nat)
    requires PlainsMatch(fs, b) && !NoScope(f.scope) && at < |b.slots| && b.slots[at].1.Group?
    ensures PlainsMatch(fs + [f], b.(slots := Grown(b.slots, at, f.text)))
  {
    var b' := b.(slots := Grown(b.slots, at, f.text));
    forall n: nat ensures Holds(b', Index(n), true) <==> exists i: nat :: PlainAt(fs + [f], i, n) {
      GrownHolds(b, at, f.text, Index(n), true);
      PlainKeysOnePast(fs, f, n);
    }
  }

  lemma OldGroupStaysFaithful(fs: seq<Filing>, b: Bucket, f: Filing, at: nat)
    requires Faithful(fs, b) && !NoScope(f.scope)
    requires Find(b.slots, ScopeKey(f.scope.value)) == Some(at) && b.slots[at].1.Group?
    ensures Faithful(fs + [f], b.(slots := Grown(b.slots, at, f.text)))
  {
    var b' := b.(slots := Grown(b.slots, at, f.text));
    NextIndexOnePast(fs, f);
    OldGroupKeepsPlains(fs, b, f, at);
    forall q ensures Listed(b'.slots, q) == Under(Items(fs + [f]), q) {
      GroupGrows(b.slots, at, f.text, q);
      ItemsOnePast(fs, f, q);
    }
  }

  /** A scoped filing fails exactly when its key is an integer that a plain entry has taken. */
  lemma ScopedFailsWhen(fs: seq<Filing>, b: Bucket, f: Filing)
    requires Faithful(fs, b) && !NoScope(f.scope)
    ensures AddScoped(b, ScopeKey(f.scope.value), f.text).None? <==> HitsPlain(fs, f)
  {}

  /**
   Filing under a heading fails exactly when a numeric scope meets a plain entry; otherwise the
   heading lists every filing once, in order within its scope.
   */
  lemma {:induction false} FilingConserves(fs: seq<Filing>)
    ensures AddAll(fs).None? <==> Collides(fs)
    ensures AddAll(fs).Some? ==> Faithful(fs, AddAll(fs).value)
    decreases |fs|
  {
    if fs == [] {
      forall n: nat ensures !Holds(EMPTY, Index(n), true) {}
    } else {
      var before, f := fs[..|fs| - 1], fs[|fs| - 1];
      assert fs == before + [f];
      FilingConserves(before);
      CollidesOnePast(before, f);
      if AddAll(before).Some? {
        var b := AddAll(before).value;
        if NoScope(f.scope) {
          PlainStaysFaithful(before, b, f);
        } else {
          ScopedFailsWhen(before, b, f);
          var r := Find(b.slots, ScopeKey(f.scope.value));
          if r.None? {
            NewGroupStaysFaithful(before, b, f);
          } else if b.slots[r.value].1.Group? {
            OldGroupStaysFaithful(before, b, f, r.value);
          }
        }
      }
    }
  }

  lemma {:induction false} CountUnder(xs: seq<Item>, q: Option<Key>, t: string)
    ensures multiset(xs)[Item(q, t)] == multiset(Under(xs, q))[t]
    decreases |xs|
  {
    if xs != [] {
      var before, x := xs[..|xs| - 1], xs[|xs| - 1];
      assert xs == before + [x];
      CountUnder(before, q, t);
    }
  }

  /**
   The output loop prints, under a heading, exactly the filings made there: the same entries the
   same number of times, and in order within each scope.
   */
  lemma OutputConserves(fs: seq<Filing>)
    requires !Collides(fs)
    ensures AddAll(fs).Some?
    ensures var out := Flatten(AddAll(fs).value.slots);
            && multiset(out) == multiset(Items(fs))
            && (forall q :: Under(out, q) == Under(Items(fs), q))
  {
    FilingConserves(fs);
    var out := Flatten(AddAll(fs).value.slots);
    forall q ensures Under(out, q) == Under(Items(fs), q) {
      FlattenLists(AddAll(fs).value.slots, q);
    }
    forall x: Item ensures multiset(out)[x] == multiset(Items(fs))[x] {
      CountUnder(out, x.scope, x.text);
      CountUnder(Items(fs), x.scope, x.text);
    }
  }

  /** Without numeric scopes filing never fails. */
  lemma NamedScopesNeverCollide(fs: seq<Filing>)
    requires forall i :: 0 <= i < |fs| && fs[i].scope.Some? ==> !Numeric(fs[i].scope.value)
    ensures !Collides(fs)
  {}

  // ---------------------------------------------------------------- filing the commits

  /** The filings under one heading. */
  function For(fs: seq<Filing>, h: Heading): seq<Filing> {
    if fs == [] then []
    else For(fs[..|fs| - 1], h) + (if fs[|fs| - 1].heading == h then [fs[|fs| - 1]] else [])
  }

  lemma ForOnePast(fs: seq<Filing>, f: Filing, h: Heading)
    ensures For(fs + [f], h) == if f.heading == h then For(fs, h) + [f] else For(fs, h)
  {}

  /** A heading not yet in the table is empty. */
  function Get(g: map<Heading, Bucket>, h: Heading): Bucket {
    if h in g then g[h] else EMPTY
  }

  /** The table holds these filings, each under its heading. */
  ghost predicate Filed(fs: seq<Filing>, g: map<Heading, Bucket>) {
    forall h :: AddAll(For(fs, h)) == Some(Get(g, h))
  }

  /** Some heading cannot take these filings. */
  ghost predicate Fatal(fs: seq<Filing>) {
    exists h :: AddAll(For(fs, h)).None?
  }

  lemma AddAllOnePast(fs: seq<Filing>, f: Filing)
    ensures AddAll(fs + [f]) == if AddAll(fs).None? then None else Add(AddAll(fs).value, f.scope, f.text)
  {}

  lemma FiledOnePast(fs: seq<Filing>, g: map<Heading, Bucket>, f: Filing)
    requires Filed(fs, g)
    ensures var r := Add(Get(g, f.heading), f.scope, f.text);
            if r.Some? then Filed(fs + [f], g[f.heading := r.value]) else Fatal(fs + [f])
  {
    forall h ensures AddAll(For(fs + [f], h)) ==
                     if h == f.heading then Add(Get(g, h), f.scope, f.text) else Some(Get(g, h))
    {
      assert AddAll(For(fs, h)) == Some(Get(g, h));
      ForOnePast(fs, f, h);
      if h == f.heading { AddAllOnePast(For(fs, h), f); }
    }
  }

  lemma FatalOnePast(fs: seq<Filing>, f: Filing)
    requires Fatal(fs)
    ensures Fatal(fs + [f])
  {
    var h :| AddAll(For(fs, h)).None?;
    ForOnePast(fs, f, h);
    AddAllOnePast(For(fs, h), f);
    assert AddAll(For(fs + [f], h)).None?;
  }

  lemma {:induction false} FatalStays(fs: seq<Filing>, more: seq<Filing>)
    requires Fatal(fs)
    ensures Fatal(fs + more)
    decreases |more|
  {
    if more == [] {
      assert fs + more == fs;
    } else {
      var n := |more| - 1;
      FatalStays(fs, more[..n]);
      FatalOnePast(fs + more[..n], more[n]);
      assert fs + more == (fs + more[..n]) + [more[n]];
    }
  }

  lemma CountBreakingOnePast(cats: seq<(string, Heading)>, tags: seq<Tag>, i: nat)
    requires i < |tags|
    ensures CountBreaking(cats, tags[..i + 1]) ==
            CountBreaking(cats, tags[..i]) + (if BreakingTag(cats, tags[i]) then 1 else 0)
  {
    assert tags[..i + 1][..i] == tags[..i];
  }

  lemma {:induction false} CountBreakingGrows(cats: seq<(string, Heading)>, tags: seq<Tag>, i: nat)
    requires i <= |tags|
    ensures CountBreaking(cats, tags[..i]) <= CountBreaking(cats, tags)
    decreases |tags| - i
  {
    if i == |tags| {
      assert tags[..i] == tags;
    } else {
      CountBreakingOnePast(cats, tags, i);
      CountBreakingGrows(cats, tags, i + 1);
    }
  }

  /** The global $catgroup. A method that returns false stands for the script dying. */
  class Listing {
    var catgroup: map<Heading, Bucket>

    constructor ()
      ensures Filed([], catgroup)
    {
      catgroup := map[Breaking := EMPTY, Features := EMPTY, BugFixes := EMPTY, Performance := EMPTY,
          Refactoring := EMPTY,
                      Testing := EMPTY, Documentation := EMPTY, Style := EMPTY, Chore := EMPTY, Misc := EMPTY];
    }

    method AddChange(change: string, heading: Heading, scope: Option<string>, ghost fs: seq<Filing>) returns (ok: bool)
      requires Filed(fs, catgroup)
      modifies this
      ensures ok ==> Filed(fs + [Filing(heading, scope, change)], catgroup)
      ensures !ok ==> Fatal(fs + [Filing(heading, scope, change)])
    {
      FiledOnePast(fs, catgroup, Filing(heading, scope, change));
      var r := Add(Get(catgroup, heading), scope, change);
      if r.None? {
        return false;
      }
      catgroup := catgroup[heading := r.value];
      return true;
    }

    /** The loop that lists a commit under the breaking changes once for each further breaking tag. */
    method AddBreaking(cats: seq<(string, Heading)>, s: Section, ghost fs: seq<Filing>) returns (ok: bool)
      requires Filed(fs, catgroup)
      modifies this
      ensures var more := Repeated(Filing(Breaking, s.first.scope, s.rest), CountBreaking(cats, s.others));
              (ok ==> Filed(fs + more, catgroup)) && (!ok ==> Fatal(fs + more))
    {
      ghost var f := Filing(Breaking, s.first.scope, s.rest);
      assert fs + Repeated(f, 0) == fs;
      for i := 0 to |s.others|
        invariant Filed(fs + Repeated(f, CountBreaking(cats, s.others[..i])), catgroup)
      {
        CountBreakingOnePast(cats, s.others, i);
        CountBreakingGrows(cats, s.others, i + 1);
        if Category(cats, s.others[i].category) == Some(Breaking) {
          ghost var n := CountBreaking(cats, s.others[..i]);
          ghost var total := CountBreaking(cats, s.others);
          ok := AddChange(s.rest, Breaking, s.first.scope, fs + Repeated(f, n));
          assert fs + Repeated(f, n) + [f] == fs + Repeated(f, n + 1);
          if !ok {
            assert fs + Repeated(f, n + 1) + Repeated(f, total - (n + 1)) == fs + Repeated(f, total);
            FatalStays(fs + Repeated(f, n + 1), Repeated(f, total - (n + 1)));
            return false;
          }
        }
      }
      assert s.others[..|s.others|] == s.others;
      return true;
    }

    /** The keyword loop: the heading to file an unsectioned commit under, or none if it is left out. */
    method Guess(cats: seq<(string, Heading)>, text: string) returns (h: Option<Heading>)
      ensures h == match Primary(cats, Commit(text, None)) case Some(f) => Some(f.heading) case None => None
      ensures h.None? <==> cats != [] && Unlisted(text)
      ensures h.Some? ==> BegunHeading(cats, text, h.value)
    {
      UnlistedSpelled(text);
      KeywordIsFirstBegun(cats, text);
      for i := 0 to |cats|
        invariant i > 0 ==> !Ignored(text)
        invariant Keyword(cats[i..], text) == Keyword(cats, text)
      {
        if ' ' !in text || MergeCommit(text) || VersionBump(text) {
          return None;
        }
        assert cats[i..][1..] == cats[i + 1..];
        if StartsFolded(text, cats[i].0 + " ") {
          return Some(cats[i].1);
        }
      }
      return Some(Misc);
    }

    method FileCommit(cats: seq<(string, Heading)>, c: Commit, ghost fs: seq<Filing>) returns (ok: bool)
      requires Filed(fs, catgroup)
      modifies this
      ensures ok ==> Filed(fs + FilingsOf(cats, c), catgroup)
      ensures !ok ==> Fatal(fs + FilingsOf(cats, c))
    {
      ghost var all := FilingsOf(cats, c);
      if c.section.Some? {
        var s := c.section.value;
        ghost var more := Repeated(Filing(Breaking, s.first.scope, s.rest), CountBreaking(cats, s.others));
        ok := AddBreaking(cats, s, fs);
        if VersionBump(s.rest) {
          assert fs + all == fs + more;
          return ok;
        }
        var h := Category(cats, s.first.category);
        var heading := OrMisc(h);
        assert fs + all == fs + more + [Filing(heading, s.first.scope, s.rest)];
        if !ok {
          FatalStays(fs + more, [Filing(heading, s.first.scope, s.rest)]);
          return false;
        }
        ok := AddChange(s.rest, heading, s.first.scope, fs + more);
      } else {
        var h := Guess(cats, c.text);
        if h.None? {
          assert fs + all == fs;
          return true;
        }
        assert all == [Filing(h.value, None, c.text)];
        ok := AddChange(c.text, h.value, None, fs);
      }
    }

    /**
     The categorisation loop. It either files every commit as the rules say, or dies because some
     heading cannot take its filings.
     */
    method FileCommits(cats: seq<(string, Heading)>, cs: seq<Commit>) returns (ok: bool)
      requires Filed([], catgroup)
      modifies this
      ensures ok ==> Filed(AllFilings(cats, cs), catgroup)
      ensures !ok <==> exists h :: Collides(For(AllFilings(cats, cs), h))
    {
      for i := 0 to |cs|
        invariant Filed(AllFilings(cats, cs[..i]), catgroup)
      {
        assert cs[..i + 1][..i] == cs[..i];
        ghost var soFar := AllFilings(cats, cs[..i]);
        ok := FileCommit(cats, cs[i], soFar);
        if !ok {
          FatalMeansCollision(cats, cs, i);
          return false;
        }
      }
      assert cs[..|cs|] == cs;
      forall h ensures !Collides(For(AllFilings(cats, cs), h)) {
        FilingConserves(For(AllFilings(cats, cs), h));
      }
      return true;
    }
  }

  /** The output loops over one heading: groups entry by entry under their scope, plain entries as they are. */
  method ListHeading(b: Bucket) returns (out: seq<Item>)
    ensures out == Flatten(b.slots)
  {
    out := [];
    for i := 0 to |b.slots|
      invariant out == Flatten(b.slots[..i])
    {
      assert b.slots[..i + 1][..i] == b.slots[..i];
      var key, item := b.slots[i].0, b.slots[i].1;
      if item.Group? {
        for j := 0 to |item.texts|
          invariant out == Flatten(b.slots[..i]) + GroupItems(key, item.texts[..j])
        {
          assert GroupItems(key, item.texts[..j + 1]) ==
                 GroupItems(key, item.texts[..j]) + [Item(Some(key), item.texts[j])];
          out := out + [Item(Some(key), item.texts[j])];
        }
        assert item.texts[..|item.texts|] == item.texts;
      } else {
        out := out + [Item(None, item.text)];
      }
    }
    assert b.slots[..|b.slots|] == b.slots;
  }

  lemma {:induction false} AllFilingsSplits(cats: seq<(string, Heading)>, cs: seq<Commit>, i: nat)
    requires i <= |cs|
    ensures AllFilings(cats, cs[..i]) <= AllFilings(cats, cs)
    decreases |cs|
  {
    if i < |cs| {
      var n := |cs| - 1;
      AllFilingsSplits(cats, cs[..n], i);
      assert cs[..n][..i] == cs[..i];
    } else {
      assert cs[..i] == cs;
    }
  }

  lemma FatalCollides(fs: seq<Filing>)
    requires Fatal(fs)
    ensures exists h :: Collides(For(fs, h))
  {
    var h :| AddAll(For(fs, h)).None?;
    FilingConserves(For(fs, h));
  }

  /** Three commits in the script's own form: "break: drop a", "break: drop b", "break(1): drop c". */
  function NumericScopeCommits(): seq<Commit> {
    [Commit("break: drop a", Some(Section(Tag("break", None), [], "drop a"))),
     Commit("break: drop b", Some(Section(Tag("break", None), [], "drop b"))),
     Commit("break(1): drop c", Some(Section(Tag("break", Some("1")), [], "drop c")))]
  }

  lemma NotABump(text: string)
    requires "drop" <= text
    ensures !VersionBump(text)
  {
    assert text[0] == 'd';
    if |text| >= 4 { assert Lower(text[..4])[0] == 'd'; }
    if |text| >= 12 { assert Lower(text[..12])[0] == 'd'; }
  }

  lemma OneTagFiling(tag: Tag, text: string, c: Commit)
    requires tag.category == "break" && c.section == Some(Section(tag, [], text)) && !VersionBump(text)
    ensures FilingsOf(CATEGORIES, c) == [Filing(Breaking, tag.scope, text)]
  {
    assert Category(CATEGORIES, "break") == Some(Breaking);
  }

  lemma AllFilingsOnePast(cats: seq<(string, Heading)>, cs: seq<Commit>, c: Commit, longer: seq<Commit>)
    requires longer == cs + [c]
    ensures AllFilings(cats, longer) == AllFilings(cats, cs) + FilingsOf(cats, c)
  {
    assert longer[..|cs|] == cs;
  }

  lemma ForOfThree(a: Filing, b: Filing, c: Filing, h: Heading)
    requires a.heading == b.heading == c.heading == h
    ensures For([a, b, c], h) == [a, b, c]
  {
    ForOnePast([], a, h);
    ForOnePast([a], b, h);
    ForOnePast([a, b], c, h);
    assert [] + [a] == [a] && [a] + [b] == [a, b] && [a, b] + [c] == [a, b, c];
  }

  lemma NumericScopeFilings(a: Filing, b: Filing, c: Filing)
    requires a.heading == b.heading == c.heading && a.scope.None? && b.scope.None? && c.scope == Some("1")
    ensures Collides([a, b, c])
  {
    var fs := [a, b, c];
    assert fs[..1] == [a] && fs[..1][..0] == [];
    assert NextIndex(fs[..1]) == 1;
    assert "1"[..0] == "" && Value("1") == 1;
    assert ScopeKey(c.scope.value) == Index(1);
    assert PlainAt(fs, 1, ScopeKey(fs[2].scope.value).n);
  }

  lemma NumericScopeFiled(a: Filing, b: Filing, c: Filing)
    requires a == Filing(Breaking, None, "drop a") && b == Filing(Breaking, None, "drop b")
             && c == Filing(Breaking, Some("1"), "drop c")
    ensures AllFilings(CATEGORIES, NumericScopeCommits()) == [a, b, c]
  {
    var cs := NumericScopeCommits();
    NotABump(a.text);
    NotABump(b.text);
    NotABump(c.text);
    OneTagFiling(Tag("break", None), a.text, cs[0]);
    OneTagFiling(Tag("break", None), b.text, cs[1]);
    OneTagFiling(Tag("break", Some("1")), c.text, cs[2]);
    AllFilingsOnePast(CATEGORIES, [], cs[0], cs[..1]);
    AllFilingsOnePast(CATEGORIES, cs[..1], cs[1], cs[..2]);
    AllFilingsOnePast(CATEGORIES, cs[..2], cs[2], cs);
  }

  /**
   A concrete failure with the script's own table: the two plain entries take the keys 0 and 1, and
   the scope 1 meets the second.
   */
  lemma NumericScopeCollides()
    ensures var fs := AllFilings(CATEGORIES, NumericScopeCommits()); Collides(For(fs, Breaking)) && Fatal(fs)
  {
    var a, b, c := Filing(Breaking, None, "drop a"), Filing(Breaking, None, "drop b"),
        Filing(Breaking, Some("1"), "drop c");
    NumericScopeFiled(a, b, c);
    ForOfThree(a, b, c, Breaking);
    NumericScopeFilings(a, b, c);
    FilingConserves([a, b, c]);
  }

  lemma FatalMeansCollision(cats: seq<(string, Heading)>, cs: seq<Commit>, i: nat)
    requires i < |cs| && Fatal(AllFilings(cats, cs[..i]) + FilingsOf(cats, cs[i]))
    ensures exists h :: Collides(For(AllFilings(cats, cs), h))
  {
    var part, all := AllFilings(cats, cs[..i + 1]), AllFilings(cats, cs);
    assert part == AllFilings(cats, cs[..i]) + FilingsOf(cats, cs[i]) by { assert cs[..i + 1][..i] == cs[..i]; }
    AllFilingsSplits(cats, cs, i + 1);
    assert part + all[|part|..] == all;
    FatalStays(part, all[|part|..]);
    FatalCollides(all);
  }
}
