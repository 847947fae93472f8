/**
 The patterns of the header script, spelled out: what a line must look like to declare a function,
 to open a comment or to be rewritten, and the text each of these yields.

 The name of a function begins with no space.
 */
module HeaderPatterns {
  import opened Prelude
  import opened HeaderComments
  import opened HeaderSyntax
  import opened HeaderLookups

  // ---------------------------------------------------------------- joining and splitting text

  lemma SplitAt<T>(a: seq<T>, b: seq<T>)
    ensures (a + b)[..|a|] == a && (a + b)[|a|..] == b
  {}

  lemma AtSplits(w: string, p: nat, t: string)
    requires At(w, p, t)
    ensures w == w[..p] + (t + w[p + |t|..])
  {
    assert w[p..] == t + w[p + |t|..];
  }

  lemma PrefixSplits(s: string, t: string)
    requires t <= s
    ensures s == t + s[|t|..]
  {}

  lemma AtBehind(w: string, k: nat, p: nat, t: string)
    requires At(w, p, t) && k <= p
    ensures At(w[k..], p - k, t)
  {
    assert w[k..][p - k..p - k + |t|] == w[p..p + |t|];
  }

  lemma AtInFront(a: string, s: string, p: nat, t: string)
    requires At(s, p, t)
    ensures At(a + s, |a| + p, t) && (a + s)[|a| + p + |t|..] == s[p + |t|..]
  {
    assert (a + s)[|a| + p..|a| + p + |t|] == s[p..p + |t|];
  }

  lemma PrefixBehind(s: string, k: nat, t: string)
    requires k <= |s| && t <= s[k..]
    ensures s[..k] + t <= s
  {}

  // ---------------------------------------------------------------- spaces

  predicate Blank(c: char) {
    c in " \t\n\U{000B}\U{000C}\r"
  }

  predicate White(s: string) {
    forall k :: 0 <= k < |s| ==> Blank(s[k])
  }

  lemma SpaceSpelled(c: char)
    ensures Space(c) <==> Blank(c)
  {
    assert " \t\n\U{000B}\U{000C}\r" == [' ', '\t', '\n', '\U{000B}', '\U{000C}', '\r'];
  }

  /** Text that is empty or begins with something other than a space. */
  predicate Solid(s: string) {
    s == "" || !Space(s[0])
  }

  lemma {:induction false} TrimMargin(sp: string, s: string)
    requires White(sp) && Solid(s)
    ensures TrimLeft(sp + s) == s
    decreases |sp|
  {
    if sp == "" {
      assert sp + s == s;
    } else {
      SpaceSpelled(sp[0]);
      assert (sp + s)[1..] == sp[1..] + s;
      TrimMargin(sp[1..], s);
    }
  }

  lemma MarginGrows(s: string, sp: string, t: string)
    requires s != "" && Space(s[0]) && White(sp) && s[1..] == sp + t
    ensures White([s[0]] + sp) && s == ([s[0]] + sp) + t
  {
    SpaceSpelled(s[0]);
    assert s == [s[0]] + s[1..];
  }

  lemma {:induction false} Margin(s: string) returns (sp: string)
    ensures White(sp) && s == sp + TrimLeft(s) && Solid(TrimLeft(s))
    decreases |s|
  {
    if s != "" && Space(s[0]) {
      var tail := Margin(s[1..]);
      MarginGrows(s, tail, TrimLeft(s));
      sp := [s[0]] + tail;
    } else {
      sp := "";
    }
  }

  lemma {:induction false} TrimTail(s: string, sp: string)
    requires White(sp) && (s == "" || !Space(s[|s| - 1]))
    ensures TrimRight(s + sp) == s
    decreases |sp|
  {
    if sp == "" {
      assert s + sp == s;
    } else {
      SpaceSpelled(sp[|sp| - 1]);
      assert (s + sp)[..|s + sp| - 1] == s + sp[..|sp| - 1];
      TrimTail(s, sp[..|sp| - 1]);
    }
  }

  lemma {:induction false} Tail(s: string) returns (sp: string)
    ensures White(sp) && s == TrimRight(s) + sp
    decreases |s|
  {
    if s != "" && Space(s[|s| - 1]) {
      var front := Tail(s[..|s| - 1]);
      SpaceSpelled(s[|s| - 1]);
      sp := front + [s[|s| - 1]];
      assert s == s[..|s| - 1] + [s[|s| - 1]];
    } else {
      sp := "";
    }
  }

  // ---------------------------------------------------------------- the trailing comma

  ghost predicate CommaAfter(text: string, base: string) {
    exists sp :: White(sp) && text == base + "," + sp
  }

  /** `p` is the text without its final comma and the spaces after it, or the text if it ends in no comma. */
  ghost predicate CommaDropped(text: string, p: string) {
    CommaAfter(text, p) || (p == text && forall base :: !CommaAfter(text, base))
  }

  lemma CommaGoes(base: string, sp: string)
    requires White(sp)
    ensures DropComma(base + "," + sp) == base
  {
    assert base + "," + sp == (base + ",") + sp;
    TrimTail(base + ",", sp);
  }

  /** What is dropped from a captured text is one comma at the end, with the spaces after it. */
  lemma DropCommaSpelled(text: string, p: string)
    ensures DropComma(text) == p <==> CommaDropped(text, p)
  {
    forall base | CommaAfter(text, base) ensures DropComma(text) == base {
      var sp :| White(sp) && text == base + "," + sp;
      CommaGoes(base, sp);
    }
    var sp := Tail(text);
    var t := TrimRight(text);
    if t != "" && t[|t| - 1] == ',' {
      assert text == t[..|t| - 1] + "," + sp;
      assert CommaAfter(text, t[..|t| - 1]);
    }
  }

  // ---------------------------------------------------------------- names one after another

  /** The names with `gaps` in front of them. */
  function Woven(gaps: seq<string>, names: seq<string>): string
    requires |gaps| == |names|
  {
    if names == [] then "" else gaps[0] + (names[0] + Woven(gaps[1..], names[1..]))
  }

  /** Any text, the first name, any text, the next name, and so on, and any text. */
  ghost predicate Named(s: string, names: seq<string>) {
    exists gaps: seq<string> :: |gaps| == |names| && Woven(gaps, names) <= s
  }

  lemma FindFromLeast(s: string, p: nat, t: string, j: nat)
    requires p <= j <= |s| && At(s, j, t)
    ensures FindFrom(s, p, t).Some? && FindFrom(s, p, t).value <= j
    decreases j - p
  {
    if p < j && !At(s, p, t) {
      FindFromLeast(s, p + 1, t, j);
    }
  }

  /** A name that stands at `k` is found there or before; what follows `k` follows the find. */
  lemma EarlierFind(s: string, name: string, k: nat) returns (q: nat, between: string)
    requires At(s, k, name)
    ensures FindFrom(s, 0, name) == Some(q) && At(s, q, name) && s[q + |name|..] == between + s[k + |name|..]
  {
    FindFromLeast(s, 0, name, k);
    q := FindFrom(s, 0, name).value;
    between := s[q + |name|..k + |name|];
  }

  lemma {:induction false} InOrderBehind(a: string, s: string, names: seq<string>)
    requires InOrder(s, names)
    ensures InOrder(a + s, names)
    decreases |names|
  {
    if names != [] {
      var p, n := FindFrom(s, 0, names[0]).value, |names[0]|;
      AtInFront(a, s, p, names[0]);
      var q, between := EarlierFind(a + s, names[0], |a| + p);
      InOrderBehind(between, s[p + n..], names[1..]);
    }
  }

  lemma NameFound(gap: string, more: string, names: seq<string>)
    requires names != [] && InOrder(more, names[1..])
    ensures InOrder(gap + (names[0] + more), names)
  {
    var s := gap + (names[0] + more);
    SplitAt(gap, names[0] + more);
    SplitAt(names[0], more);
    assert At(s, |gap|, names[0]) && s[|gap| + |names[0]|..] == more;
    var q, between := EarlierFind(s, names[0], |gap|);
    InOrderBehind(between, more, names[1..]);
  }

  lemma Regroup(a: string, b: string, c: string, d: string)
    ensures (a + (b + c)) + d == a + (b + (c + d))
  {}

  lemma {:induction false} WovenInOrder(gaps: seq<string>, names: seq<string>, rest: string)
    requires |gaps| == |names|
    ensures InOrder(Woven(gaps, names) + rest, names)
    decreases |names|
  {
    if names != [] {
      WovenInOrder(gaps[1..], names[1..], rest);
      NameFound(gaps[0], Woven(gaps[1..], names[1..]) + rest, names);
      Regroup(gaps[0], names[0], Woven(gaps[1..], names[1..]), rest);
    }
  }

  lemma WovenMore(s: string, p: nat, gaps: seq<string>, names: seq<string>)
    requires names != [] && At(s, p, names[0]) && |gaps| == |names[1..]|
    requires Woven(gaps, names[1..]) <= s[p + |names[0]|..]
    ensures Woven([s[..p]] + gaps, names) <= s
  {
    var t := Woven(gaps, names[1..]);
    SplitAt([s[..p]], gaps);
    PrefixBehind(s, p + |names[0]|, t);
    AtSplits(s[..p + |names[0]|], p, names[0]);
    Regroup(s[..p], names[0], "", t);
  }

  lemma {:induction false} InOrderWoven(s: string, names: seq<string>) returns (gaps: seq<string>)
    requires InOrder(s, names)
    ensures |gaps| == |names| && Woven(gaps, names) <= s
    decreases |names|
  {
    if names == [] {
      gaps := [];
    } else {
      var p := FindFrom(s, 0, names[0]).value;
      var tail := InOrderWoven(s[p + |names[0]|..], names[1..]);
      WovenMore(s, p, tail, names);
      gaps := [s[..p]] + tail;
    }
  }

  lemma PrefixInOrder(gaps: seq<string>, names: seq<string>, s: string)
    requires |gaps| == |names| && Woven(gaps, names) <= s
    ensures InOrder(s, names)
  {
    var w := Woven(gaps, names);
    WovenInOrder(gaps, names, s[|w|..]);
    assert w + s[|w|..] == s;
  }

  /** Finding each name as early as possible finds them all exactly when the text holds them one after another. */
  lemma InOrderSpelled(s: string, names: seq<string>)
    ensures InOrder(s, names) <==> Named(s, names)
  {
    if Named(s, names) {
      var gaps: seq<string> :| |gaps| == |names| && Woven(gaps, names) <= s;
      PrefixInOrder(gaps, names, s);
    }
    if InOrder(s, names) { var gaps := InOrderWoven(s, names); }
  }

  // ---------------------------------------------------------------- a declaration

  /** The parts of a declaration that vary. */
  datatype Layout = Layout(margin: string, gap: string, pad: string, text: string, wrap: string, rest: string)

  /** What stands behind the opening parenthesis. */
  function Inside(d: Layout): string {
    d.text + ("command_completion_event_t" + (d.wrap + ("callback" + d.rest)))
  }

  /** The line is the function's declaration with a callback parameter, laid out as `d` says. */
  ghost predicate Spells(d: Layout, line: string, r: Request) {
    && White(d.margin) && White(d.gap) && d.gap != "" && White(d.pad) && White(d.wrap)
    && '\n' !in d.text && Named(d.text, r.names)
    && line == d.margin + ("void" + (d.gap + (r.functionName + (d.pad + ("(" + Inside(d))))))
  }

  lemma SpelledCallback(d: Layout, names: seq<string>)
    requires White(d.wrap) && '\n' !in d.text && Named(d.text, names)
    ensures |d.text| <= |Inside(d)| && Inside(d)[..|d.text|] == d.text && CallbackFits(Inside(d), |d.text|, names)
  {
    var b := d.wrap + ("callback" + d.rest);
    SplitAt(d.text, EVENT + b);
    assert Inside(d) == d.text + EVENT + b;
    assert Solid("callback" + d.rest);
    TrimMargin(d.wrap, "callback" + d.rest);
    InOrderSpelled(d.text, names);
    CallbackFollows(d.text, b, names);
  }

  lemma SpacesAndCallback(b: string) returns (wrap: string, rest: string)
    requires "callback" <= TrimLeft(b)
    ensures White(wrap) && b == wrap + ("callback" + rest)
  {
    wrap := Margin(b);
    rest := TrimLeft(b)[|"callback"|..];
    assert TrimLeft(b) == "callback" + rest;
  }

  lemma FittingCallback(w: string, p: nat, names: seq<string>) returns (wrap: string, rest: string)
    requires CallbackFits(w, p, names)
    ensures White(wrap) && Named(w[..p], names)
    ensures w == w[..p] + ("command_completion_event_t" + (wrap + ("callback" + rest)))
  {
    InOrderSpelled(w[..p], names);
    AtSplits(w, p, EVENT);
    wrap, rest := SpacesAndCallback(w[p + |EVENT|..]);
  }

  lemma NoNameOpens(gap: string, pad: string, open: string)
    requires White(gap) && White(pad) && Solid(open)
    ensures TrimLeft(gap + ("" + (pad + open))) == open
  {
    assert gap + ("" + (pad + open)) == (gap + pad) + open;
    TrimMargin(gap + pad, open);
  }

  /** A name, spaces, and the opening parenthesis. */
  lemma NameOpens(gap: string, f: string, pad: string, open: string)
    requires White(gap) && White(pad) && Solid(f) && Solid(open)
    ensures f <= TrimLeft(gap + (f + (pad + open))) && TrimLeft(TrimLeft(gap + (f + (pad + open)))[|f|..]) == open
  {
    if f == "" {
      NoNameOpens(gap, pad, open);
      assert open[0..] == open;
    } else {
      TrimMargin(gap, f + (pad + open));
      SplitAt(f, pad + open);
      TrimMargin(pad, open);
    }
  }

  lemma OpenedAfterVoid(after: string, f: string, open: string)
    requires after != "" && Space(after[0]) && f <= TrimLeft(after)
    requires TrimLeft(TrimLeft(after)[|f|..]) == open && open != "" && open[0] == '('
    ensures Opened("void" + after, f) == Some(open[1..])
  {
    SplitAt("void", after);
  }

  /** What opens a declaration: its name stands before the parenthesis, with nothing but spaces around. */
  lemma OpeningSpelled(f: string, margin: string, gap: string, pad: string, w: string)
    requires White(margin) && White(gap) && gap != "" && White(pad) && Solid(f)
    ensures Opened(TrimLeft(margin + ("void" + (gap + (f + (pad + ("(" + w)))))), f) == Some(w)
  {
    var open := "(" + w;
    var after := gap + (f + (pad + open));
    TrimMargin(margin, "void" + after);
    SpaceSpelled(gap[0]);
    assert after[0] == gap[0];
    NameOpens(gap, f, pad, open);
    OpenedAfterVoid(after, f, open);
    assert open[1..] == w;
  }

  lemma OpenedSpelled(line: string, f: string, w: string) returns (margin: string, gap: string, pad: string)
    requires Opened(TrimLeft(line), f) == Some(w)
    ensures White(margin) && White(gap) && gap != "" && White(pad)
    ensures line == margin + ("void" + (gap + (f + (pad + ("(" + w)))))
  {
    margin := Margin(line);
    var after := TrimLeft(line)[4..];
    PrefixSplits(TrimLeft(line), "void");
    gap := Margin(after);
    SplitAt(gap, TrimLeft(after));
    var name := TrimLeft(after);
    PrefixSplits(name, f);
    pad := Margin(name[|f|..]);
    PrefixSplits(TrimLeft(name[|f|..]), "(");
  }

  lemma {:induction false} BeforeCallbackFits(w: string, p: nat, names: seq<string>)
    requires p <= |w|
    ensures var t := BeforeCallback(w, p, names);
            t.Some? ==> |t.value| <= p && t.value == w[..|t.value|] && CallbackFits(w, |t.value|, names)
    decreases p
  {
    if !CallbackFits(w, p, names) && p != 0 {
      BeforeCallbackFits(w, p - 1, names);
    }
  }

  lemma {:induction false} BeforeCallbackIsLast(w: string, p: nat, names: seq<string>, j: nat)
    requires j <= p <= |w| && CallbackFits(w, j, names)
    ensures BeforeCallback(w, p, names).Some? && j <= |BeforeCallback(w, p, names).value|
    decreases p
  {
    if !CallbackFits(w, p, names) {
      BeforeCallbackIsLast(w, p - 1, names, j);
    }
  }

  lemma SpelledCaptured(d: Layout, line: string, r: Request)
    requires Spells(d, line, r) && Solid(r.functionName)
    ensures Opened(TrimLeft(line), r.functionName) == Some(Inside(d))
    ensures Captured(TrimLeft(line), r).Some? && |d.text| <= |Captured(TrimLeft(line), r).value|
  {
    OpeningSpelled(r.functionName, d.margin, d.gap, d.pad, Inside(d));
    CapturedOpened(TrimLeft(line), r);
    SpelledCallback(d, r.names);
    BeforeCallbackIsLast(Inside(d), |Inside(d)|, r.names, |d.text|);
  }

  lemma CapturedSpelled(line: string, r: Request) returns (d: Layout)
    requires Captured(TrimLeft(line), r).Some?
    ensures Spells(d, line, r) && d.text == Captured(TrimLeft(line), r).value
  {
    var s := TrimLeft(line);
    CapturedOpened(s, r);
    var w := Opened(s, r.functionName).value;
    var margin, gap, pad := OpenedSpelled(line, r.functionName, w);
    BeforeCallbackFits(w, |w|, r.names);
    var text := Captured(s, r).value;
    var wrap, rest := FittingCallback(w, |text|, r.names);
    d := Layout(margin, gap, pad, text, wrap, rest);
    assert Inside(d) == w;
  }

  /**
   A line declares a function exactly when it is laid out as one: `void`, the name, and behind the
   parenthesis text that holds the parameter names one after another, up to the callback parameter.
   */
  lemma DeclarationSpelled(line: string, r: Request)
    requires Solid(r.functionName)
    ensures Declares(line, r) <==> exists d :: Spells(d, line, r)
  {
    if d :| Spells(d, line, r) { SpelledCaptured(d, line, r); }
    if Declares(line, r) { var d := CapturedSpelled(line, r); }
  }

  /** No layout of the line has a longer text. */
  ghost predicate Longest(d: Layout, line: string, r: Request) {
    Spells(d, line, r) && forall e :: Spells(e, line, r) ==> |e.text| <= |d.text|
  }

  lemma LongestCaptured(line: string, r: Request) returns (d: Layout)
    requires Solid(r.functionName) && Declares(line, r)
    ensures Longest(d, line, r)
  {
    d := CapturedSpelled(line, r);
    forall e | Spells(e, line, r) ensures |e.text| <= |d.text| { SpelledCaptured(e, line, r); }
  }

  /** The parameters of a declaration are the longest such text, without its final comma. */
  lemma ParametersSpelled(line: string, r: Request, d: Layout)
    requires Solid(r.functionName) && Longest(d, line, r)
    ensures Declares(line, r) && CommaDropped(d.text, Parameters(line, r))
  {
    SpelledCaptured(d, line, r);
    var e := CapturedSpelled(line, r);
    SpelledCaptured(e, line, r);
    SplitAt(d.text, Inside(d)[|d.text|..]);
    SplitAt(e.text, Inside(e)[|e.text|..]);
    assert d.text == Inside(d)[..|d.text|] && e.text == Inside(e)[..|e.text|];
    DropCommaSpelled(d.text, Parameters(line, r));
  }

  /** A longer layout of the same line has its callback parameter further on. */
  lemma LaterCallback(line: string, r: Request, d: Layout, e: Layout)
    requires Solid(r.functionName) && Spells(d, line, r) && Spells(e, line, r) && |d.text| < |e.text|
    ensures Contains(Inside(d)[|d.text| + 1..], "command_completion_event_t")
  {
    SpelledCaptured(d, line, r);
    SpelledCaptured(e, line, r);
    SpelledCallback(e, r.names);
    AtBehind(Inside(d), |d.text| + 1, |e.text|, EVENT);
  }

  /**
   A declaration in which nothing else of the callback's type follows the callback parameter: its
   parameters are the text before that one, without the comma in between.
   */
  lemma TextBeforeCallback(line: string, r: Request, d: Layout, base: string, sp: string)
    requires Solid(r.functionName) && White(sp) && d.text == base + "," + sp && Spells(d, line, r)
    requires !Contains(Inside(d)[|d.text| + 1..], "command_completion_event_t")
    ensures Declares(line, r) && Parameters(line, r) == base
  {
    forall e | Spells(e, line, r) ensures |e.text| <= |d.text| {
      if |d.text| < |e.text| { LaterCallback(line, r, d, e); }
    }
    ParametersSpelled(line, r, d);
    CommaGoes(base, sp);
    DropCommaSpelled(d.text, Parameters(line, r));
  }

  /**
   What the lookup of a function's parameters in a header yields: the longest text of the first line
   laid out as a declaration of the function, without its final comma, or nothing if no line is.
   */
  lemma FullParametersSpelled(h: seq<string>, r: Request, p: Option<string>, at: nat)
    requires Solid(r.functionName) && Yields(PHP, h, r, p, at)
    ensures p.None? ==> forall k, d :: 0 <= k < |h| ==> !Spells(d, h[k], r)
    ensures p.Some? ==>
              && at < |h| && (forall k, d :: 0 <= k < at ==> !Spells(d, h[k], r))
              && exists d :: Longest(d, h[at], r) && CommaDropped(d.text, p.value)
  {
    forall k | 0 <= k < |h| ensures PHP.declares(h[k], r) <==> exists d :: Spells(d, h[k], r) {
      DeclarationSpelled(h[k], r);
    }
    if p.Some? {
      var d := LongestCaptured(h[at], r);
      ParametersSpelled(h[at], r, d);
    }
  }

  // ---------------------------------------------------------------- the opening of a comment

  lemma {:induction false} TrimmedAway(s: string)
    ensures TrimLeft(s) == "" <==> White(s)
    decreases |s|
  {
    var sp := Margin(s);
    if White(s) {
      assert s == s + "";
      TrimMargin(s, "");
    }
    if TrimLeft(s) == "" { assert s == sp; }
  }

  /** A line opens a comment when nothing but spaces follows a slash and two stars on it. */
  lemma OpensSpelled(line: string)
    ensures Opens(line) <==> exists a: string, sp: string :: White(sp) && line == a + ("/**" + sp)
  {
    if Opens(line) {
      var p: nat :| p <= |line| && At(line, p, "/**") && TrimLeft(line[p + 3..]) == "";
      TrimmedAway(line[p + 3..]);
      assert line == line[..p] + ("/**" + line[p + 3..]);
    }
    if a: string, sp: string :| White(sp) && line == a + ("/**" + sp) {
      assert line[|a| + 3..] == sp && At(line, |a|, "/**");
      TrimmedAway(sp);
    }
  }

  // ---------------------------------------------------------------- the rewriting

  /** A tag on a line, with what stands before it and what follows it on the line's last row. */
  datatype Tagged = Tagged(before: string, after: string, end: string)

  ghost predicate Carries(m: Tagged, s: string, tag: string, least: nat) {
    && s == m.before + (tag + (m.after + m.end))
    && '\n' !in m.after && least <= |m.after| && (m.end == "" || m.end == "\n")
  }

  ghost predicate CarriesFirst(m: Tagged, s: string, tag: string, least: nat) {
    Carries(m, s, tag, least) && forall o :: Carries(o, s, tag, least) ==> |m.before| <= |o.before|
  }

  lemma CarriedEnd(m: Tagged, s: string, tag: string, least: nat)
    requires Carries(m, s, tag, least) && tag != "" && '\n' !in tag
    ensures LineEnd(s) == |m.before| + |tag| + |m.after|
  {
    var rest := m.before + (tag + m.after);
    assert s == rest + m.end;
    if m.end == "" {
      assert s == rest && s[|s| - 1] == (tag + m.after)[|tag + m.after| - 1];
    } else {
      SplitAt(rest, m.end);
    }
  }

  lemma CarriedParts(m: Tagged, s: string, tag: string)
    requires s == m.before + (tag + (m.after + m.end))
    ensures var p := |m.before| + |tag|;
            && At(s, |m.before|, tag) && s[..|m.before|] == m.before
            && s[p..p + |m.after|] == m.after && s[p + |m.after|..] == m.end
  {
    SplitAt(m.before, tag + (m.after + m.end));
    SplitAt(tag, m.after + m.end);
    SplitAt(m.after, m.end);
    assert s[|m.before|..][|tag|..] == s[|m.before| + |tag|..];
  }

  lemma CarriedTag(m: Tagged, s: string, tag: string, least: nat)
    requires Carries(m, s, tag, least) && tag != "" && '\n' !in tag
    ensures TagAt(s, |m.before|, tag, least)
    ensures m == Tagged(s[..|m.before|], s[|m.before| + |tag|..LineEnd(s)], s[LineEnd(s)..])
  {
    CarriedEnd(m, s, tag, least);
    CarriedParts(m, s, tag);
  }

  lemma TagCarried(s: string, p: nat, tag: string, least: nat) returns (m: Tagged)
    requires TagAt(s, p, tag, least)
    ensures Carries(m, s, tag, least) && |m.before| == p
  {
    var rest, n := s[p + |tag|..], LineEnd(s) - (p + |tag|);
    AtSplits(s, p, tag);
    m := Tagged(s[..p], rest[..n], rest[n..]);
    assert rest == rest[..n] + rest[n..];
    assert rest[..n] == s[p + |tag|..LineEnd(s)];
    assert |rest[n..]| == |s| - LineEnd(s);
    if |rest[n..]| == 1 {
      assert rest[n..][0] == s[|s| - 1];
    }
  }

  /** The first tag is found wherever there is one. */
  lemma FirstTagSpelled(s: string, tag: string, least: nat, m: Tagged)
    requires tag != "" && '\n' !in tag
    ensures FirstTag(s, 0, tag, least).None? <==> forall o :: !Carries(o, s, tag, least)
    ensures CarriesFirst(m, s, tag, least) ==> FirstTag(s, 0, tag, least) == Some(|m.before|)
  {
    FirstTagIsFirst(s, 0, tag, least);
    forall o | Carries(o, s, tag, least)
      ensures FirstTag(s, 0, tag, least).Some? && FirstTag(s, 0, tag, least).value <= |o.before|
    {
      CarriedTag(o, s, tag, least);
    }
    if FirstTag(s, 0, tag, least).Some? {
      var o := TagCarried(s, FirstTag(s, 0, tag, least).value, tag, least);
    }
  }

  /** A see tag gains the function's own, and goes to the next row with what follows it. */
  lemma SeeSpelled(s: string, f: string, m: Tagged)
    ensures (forall o :: !Carries(o, s, "@see ", 1)) ==> ReplaceSee(s, f) == s
    ensures CarriesFirst(m, s, "@see ", 1) ==>
              ReplaceSee(s, f) == m.before + ("@see dpp::cluster::" + f + "\n * @see " + (m.after + m.end))
  {
    FirstTagSpelled(s, "@see ", 1, m);
    if CarriesFirst(m, s, "@see ", 1) {
      CarriedTag(m, s, "@see ", 1);
      assert s[|m.before| + 5..] == m.after + m.end;
      assert "@see dpp::cluster::" + f == Inserted(f);
    }
  }

  /** A callback tag gives way, with what follows it, to the type that the function returns. */
  lemma CallbackSpelled(s: string, t: string, m: Tagged)
    ensures (forall o :: !Carries(o, s, "@param callback ", 0)) ==> ReplaceCallback(s, t) == s
    ensures CarriesFirst(m, s, "@param callback ", 0) ==>
              ReplaceCallback(s, t) == m.before + ("@return " + t + " returned object on completion" + m.end)
  {
    FirstTagSpelled(s, "@param callback ", 0, m);
    if CarriesFirst(m, s, "@param callback ", 0) {
      CarriedTag(m, s, "@param callback ", 0);
    }
  }

  predicate Tabs(s: string) {
    forall k :: 0 <= k < |s| ==> s[k] == '\t'
  }

  lemma {:induction false} StripSpelled(tabs: string, s: string)
    requires Tabs(tabs) && !("\t" <= s)
    ensures StripTabs(tabs + s) == s
    decreases |tabs|
  {
    if tabs == "" {
      assert tabs + s == s;
      assert s != "" && s[0] == '\t' ==> "\t" <= s;
    } else {
      assert (tabs + s)[1..] == tabs[1..] + s;
      StripSpelled(tabs[1..], s);
    }
  }

  ghost predicate SaysOnSuccess(v: string) {
    exists a: string, b: string, c: string :: v == a + b + c && Lower(b) == "* on success "
  }

  lemma PartLowered(a: string, b: string, c: string)
    ensures Lower(a + b + c)[|a|..|a| + |b|] == Lower(b)
  {
    assert forall k :: 0 <= k < |b| ==> (a + b + c)[|a| + k] == b[k];
  }

  lemma RemarkSpelled(v: string)
    ensures Contains(Lower(v), SUCCESS) <==> SaysOnSuccess(v)
  {
    if p: nat :| p <= |Lower(v)| && At(Lower(v), p, SUCCESS) {
      var q := p + |SUCCESS|;
      assert v == v[..p] + v[p..q] + v[q..];
      PartLowered(v[..p], v[p..q], v[q..]);
    }
    if a: string, b: string, c: string :| v == a + b + c && Lower(b) == "* on success " {
      PartLowered(a, b, c);
      assert At(Lower(v), |a|, SUCCESS);
    }
  }

  /**
   The rewriting in full: leading tabs go, then the two tags are replaced as SeeSpelled and
   CallbackSpelled say, and a line that then speaks of success, in any case, is blanked.
   */
  lemma RewriteSpelled(tabs: string, s: string, r: Request, v: string)
    requires Tabs(tabs) && !("\t" <= s) && v == ReplaceCallback(ReplaceSee(s, r.functionName), r.returnType)
    ensures Rewrite(tabs + s, r) == if SaysOnSuccess(v) then "" else v
  {
    StripSpelled(tabs, s);
    RemarkSpelled(v);
  }
}
