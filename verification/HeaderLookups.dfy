/**
 When the generator's lookup of a function's parameters still finds the line that declared the
 function in the header as read: a condition on that line alone, as it stands in the file.

 Header lines come from a split at newlines and hold none.
 */
module HeaderLookups {
  import opened Prelude
  import opened HeaderComments
  import opened HeaderSyntax

  // ---------------------------------------------------------------- what is kept of a line

  /** The text before the first callback tag. */
  function Cut(s: string): string {
    match FirstTag(s, 0, CALLBACK, 0)
    case None => s
    case Some(c) => s[..c]
  }

  /**
   What the first rewriting leaves of a line's text: a callback tag that it reaches is replaced
   with all that follows.
   */
  function Kept(s: string): string {
    match FirstTag(s, 0, SEE, 1)
    case None => Cut(s)
    case Some(p) => s[..p + |SEE|] + Cut(s[p + |SEE|..])
  }

  /** The part of it that stays on the line: a see tag starts a new one. */
  function Head(s: string): string {
    match FirstTag(s, 0, SEE, 1)
    case None => Cut(s)
    case Some(p) => s[..p]
  }

  /** The line still declares the function once rewritten: its head does, and no success remark blanks it. */
  predicate Survives(line: string, r: Request) {
    Declares(Head(StripTabs(line)), r) && !Contains(Lower(Kept(StripTabs(line))), SUCCESS)
  }

  /** The parameters it then yields. */
  function SurvivingText(line: string, r: Request): string {
    Parameters(Head(StripTabs(line)), r)
  }

  /** A name the generator may insert: it adds no tag, remark, line or callback parameter of its own. */
  predicate Plain(name: string) {
    '@' !in name && '*' !in name && '\n' !in name && !Contains(name, EVENT)
  }

  ghost predicate PlainRequests(rs: seq<Request>) {
    forall r :: r in rs ==> Plain(r.functionName) && Plain(r.returnType)
  }

  ghost function Lines(): iset<string> {
    iset l | '\n' !in l
  }

  // ---------------------------------------------------------------- searching a joined text

  /** An occurrence in a joined text lies in one part, unless the characters at the joint belong to `t`. */
  lemma InOnePart(a: string, b: string, t: string)
    requires Contains(a + b, t) && t != ""
    ensures Contains(a, t) || Contains(b, t) || (a != "" && b != "" && a[|a| - 1] in t && b[0] in t[1..])
  {
    var p: nat :| p <= |a + b| && At(a + b, p, t);
    if p + |t| <= |a| {
      assert At(a, p, t);
    } else if |a| <= p {
      assert At(b, p - |a|, t);
    } else {
      assert t[1..][|a| - p - 1] == (a + b)[|a|];
      assert t[|a| - 1 - p] == (a + b)[|a| - 1];
    }
  }

  lemma PartContains(a: string, b: string, t: string)
    ensures Contains(a, t) || Contains(b, t) ==> Contains(a + b, t)
  {
    if p: nat :| p <= |a| && At(a, p, t) { assert At(a + b, p, t); }
    if Contains(b, t) {
      assert (a + b)[|a|..] == b;
      SuffixContains(a + b, |a|, t);
    }
  }

  /** A success remark does not cross an at sign. */
  lemma RemarkInParts(a: string, b: string)
    requires b != "" && b[0] == '@'
    ensures Contains(Lower(a + b), SUCCESS) <==> Contains(Lower(a), SUCCESS) || Contains(Lower(b), SUCCESS)
  {
    assert Lower(a + b) == Lower(a) + Lower(b);
    PartContains(Lower(a), Lower(b), SUCCESS);
    if Contains(Lower(a) + Lower(b), SUCCESS) {
      InOnePart(Lower(a), Lower(b), SUCCESS);
    }
  }

  /** A remark begins with a star. */
  lemma NoStarNoRemark(s: string, tail: nat)
    requires tail < |SUCCESS| && tail <= |s| && '*' !in s[..|s| - tail]
    ensures !Contains(Lower(s), SUCCESS)
  {
    assert SUCCESS[0] == '*';
  }

  lemma FirstTagIsFirst(s: string, p: nat, tag: string, least: nat)
    ensures var r := FirstTag(s, p, tag, least);
            forall j: nat :: p <= j && TagAt(s, j, tag, least) ==> r.Some? && r.value <= j
    decreases |s| - p
  {
    if !TagAt(s, p, tag, least) && p < |s| {
      FirstTagIsFirst(s, p + 1, tag, least);
    }
  }

  lemma FirstTagIs(s: string, tag: string, least: nat, p: nat)
    requires TagAt(s, p, tag, least) && forall j: nat :: j < p ==> !TagAt(s, j, tag, least)
    ensures FirstTag(s, 0, tag, least) == Some(p)
  {
    FirstTagIsFirst(s, 0, tag, least);
  }

  // ---------------------------------------------------------------- a declaration and what follows it

  lemma {:induction false} LastFit(s: string, p: nat, names: seq<string>)
    requires p <= |s|
    ensures BeforeCallback(s, p, names).Some? <==> exists j: nat :: j <= p && CallbackFits(s, j, names)
    decreases p
  {
    if !CallbackFits(s, p, names) && p != 0 {
      LastFit(s, p - 1, names);
    }
  }

  /** Text that begins with an at sign, or none. */
  predicate Tag(u: string) {
    u == "" || u[0] == '@'
  }

  lemma {:induction false} TrimBefore(s: string, u: string)
    requires Tag(u)
    ensures TrimLeft(s + u) == TrimLeft(s) + u
    decreases |s|
  {
    if s != "" && Space(s[0]) {
      assert (s + u)[1..] == s[1..] + u;
      TrimBefore(s[1..], u);
    }
  }

  lemma LongerMeetsTag(s: string, u: string, t: string)
    requires Tag(u) && t <= s + u && |s| < |t|
    ensures '@' in t
  {
    assert t[|s|] == (s + u)[|s|];
  }

  lemma PrefixBefore(s: string, u: string, t: string)
    requires Tag(u) && '@' !in t
    ensures t <= s + u <==> t <= s
  {
    if t <= s + u && |s| < |t| {
      LongerMeetsTag(s, u, t);
    }
  }

  lemma AtBefore(w: string, u: string, p: nat, t: string)
    requires Tag(u) && '@' !in t && p <= |w|
    ensures At(w + u, p, t) <==> At(w, p, t)
  {
    assert (w + u)[p..] == w[p..] + u;
    PrefixBefore(w[p..], u, t);
    assert At(w, p, t) <==> t <= w[p..];
    assert At(w + u, p, t) <==> t <= (w + u)[p..];
  }

  lemma CallbackBefore(w: string, u: string, p: nat)
    requires Tag(u) && p <= |w|
    ensures CallbackAt(w + u, p) <==> CallbackAt(w, p)
  {
    AtBefore(w, u, p, EVENT);
    if At(w, p, EVENT) {
      assert (w + u)[p + |EVENT|..] == w[p + |EVENT|..] + u;
      TrimBefore(w[p + |EVENT|..], u);
      PrefixBefore(TrimLeft(w[p + |EVENT|..]), u, "callback");
    }
  }

  lemma FitsBefore(w: string, u: string, p: nat, names: seq<string>)
    requires Tag(u) && p <= |w|
    ensures (w + u)[..p] == w[..p]
    ensures CallbackFits(w + u, p, names) <==> CallbackFits(w, p, names)
  {
    assert (w + u)[..p] == w[..p];
    CallbackBefore(w, u, p);
  }

  /** The event type never stands on the first line of `u`. */
  ghost predicate CleanTail(u: string) {
    Tag(u) && forall j: nat :: At(u, j, EVENT) ==> '\n' in u[..j]
  }

  lemma NoFitInTail(w: string, u: string, p: nat, names: seq<string>)
    requires CleanTail(u) && |w| < p <= |w + u|
    ensures !CallbackFits(w + u, p, names)
  {
    if At(w + u, p, EVENT) {
      assert At(u, p - |w|, EVENT);
      assert (w + u)[..p] == w + u[..p - |w|];
    }
  }

  lemma {:induction false} BeforeCallbackStays(w: string, u: string, p: nat, names: seq<string>)
    requires CleanTail(u) && p <= |w + u|
    ensures BeforeCallback(w + u, p, names) == BeforeCallback(w, if p <= |w| then p else |w|, names)
    decreases p
  {
    if p <= |w| {
      FitsBefore(w, u, p, names);
    } else {
      NoFitInTail(w, u, p, names);
    }
    if p != 0 {
      BeforeCallbackStays(w, u, p - 1, names);
    }
  }

  /** The text after the opening parenthesis, if the line begins as a declaration of the function. */
  function Opened(s: string, functionName: string): Option<string> {
    if "void" <= s && |s| > 4 && Space(s[4]) then
      var name := TrimLeft(s[4..]);
      if functionName <= name then
        var open := TrimLeft(name[|functionName|..]);
        if open != "" && open[0] == '(' then Some(open[1..]) else None
      else None
    else None
  }

  lemma CapturedOpened(s: string, r: Request)
    ensures Captured(s, r) ==
            match Opened(s, r.functionName) case None => None case Some(w) => BeforeCallback(w, |w|, r.names)
  {}

  lemma OpenedBefore(s: string, u: string, functionName: string)
    requires Tag(u) && '@' !in functionName
    ensures Opened(s + u, functionName) ==
            match Opened(s, functionName) case None => None case Some(w) => Some(w + u)
  {
    PrefixBefore(s, u, "void");
    if "void" <= s && |s| > 4 && Space(s[4]) {
      assert (s + u)[4..] == s[4..] + u;
      TrimBefore(s[4..], u);
      var name := TrimLeft(s[4..]);
      PrefixBefore(name, u, functionName);
      if functionName <= name {
        assert (name + u)[|functionName|..] == name[|functionName|..] + u;
        TrimBefore(name[|functionName|..], u);
        var open := TrimLeft(name[|functionName|..]);
        if open != "" { assert (open + u)[1..] == open[1..] + u; }
      }
    }
  }

  /** What follows a declaration does not matter while the event type is not in it. */
  lemma TailIgnored(s: string, u: string, r: Request)
    requires CleanTail(u) && '@' !in r.functionName
    ensures Declares(s + u, r) <==> Declares(s, r)
    ensures Parameters(s + u, r) == Parameters(s, r)
  {
    TrimBefore(s, u);
    var t := TrimLeft(s);
    OpenedBefore(t, u, r.functionName);
    CapturedOpened(t, r);
    CapturedOpened(t + u, r);
    if Opened(t, r.functionName).Some? {
      var w := Opened(t, r.functionName).value;
      BeforeCallbackStays(w, u, |w + u|, r.names);
    }
  }

  /** Nothing that follows unmakes a declaration. */
  lemma TailKeepsDeclaration(s: string, u: string, r: Request)
    requires Tag(u) && '@' !in r.functionName && Declares(s, r)
    ensures Declares(s + u, r)
  {
    TrimBefore(s, u);
    var t := TrimLeft(s);
    OpenedBefore(t, u, r.functionName);
    CapturedOpened(t, r);
    CapturedOpened(t + u, r);
    var w := Opened(t, r.functionName).value;
    LastFit(w, |w|, r.names);
    var j: nat :| j <= |w| && CallbackFits(w, j, r.names);
    FitsBefore(w, u, j, r.names);
    LastFit(w + u, |w + u|, r.names);
  }

  // ---------------------------------------------------------------- the first rewriting

  /** A text on one line, without a callback tag: what may stand after a see tag once rewritten. */
  ghost predicate Final(x: string) {
    x != "" && '\n' !in x && FirstTag(x, 0, CALLBACK, 0).None?
  }

  /** A callback tag in a text on one line, with what follows it, gives way to the return tag. */
  function CallbackReplaced(s: string, returnType: string): string {
    Cut(s) + (if FirstTag(s, 0, CALLBACK, 0).None? then "" else Returned(returnType))
  }

  lemma OneLineEnd(s: string)
    requires '\n' !in s
    ensures LineEnd(s) == |s|
  {}

  lemma CallbackOnOneLine(s: string, returnType: string)
    requires '\n' !in s
    ensures ReplaceCallback(s, returnType) == CallbackReplaced(s, returnType)
  {
    OneLineEnd(s);
  }

  /** A tag does not match above a newline. */
  lemma NewlineBelow(s: string, n: nat, j: nat, tag: string)
    requires j <= n < LineEnd(s) && s[n] == '\n' && At(s, j, tag) && j + |tag| <= LineEnd(s)
    ensures '\n' in tag || '\n' in s[j + |tag|..LineEnd(s)]
  {
    if n < j + |tag| {
      assert s[n] == s[j..j + |tag|][n - j];
    } else {
      assert s[n] == s[j + |tag|..LineEnd(s)][n - j - |tag|];
    }
  }

  lemma TagInTail(a: string, x: string, tag: string, least: nat, j: nat)
    requires '\n' !in x && |a| <= j && x != ""
    ensures TagAt(a + x, j, tag, least) <==> TagAt(x, j - |a|, tag, least)
  {
    var s := a + x;
    OneLineEnd(x);
    assert s[|s| - 1] == x[|x| - 1];
    if j + |tag| <= |s| {
      assert s[j..j + |tag|] == x[j - |a|..j - |a| + |tag|];
      assert s[j + |tag|..] == x[j - |a| + |tag|..];
      assert s[j + |tag|..|s|] == s[j + |tag|..] && x[j - |a| + |tag|..|x|] == x[j - |a| + |tag|..];
    }
  }

  /** On the last line only its own see tag and the tags in its text match. */
  lemma TagOnLastLine(a: string, x: string, tag: string, least: nat, j: nat)
    requires x != "" && '\n' !in x && (tag == SEE || tag == CALLBACK) && j < |a + NEXT|
    ensures TagAt(a + NEXT + x, j, tag, least) ==> tag == SEE && j == |a| + 4
  {
    var s := a + NEXT + x;
    assert s[|s| - 1] == x[|x| - 1];
    assert s[|a|] == '\n' && s[|a| + 1] == ' ' && s[|a| + 2] == '*' && s[|a| + 3] == ' ' && s[|a| + 4] == '@'
           && s[|a| + 5] == 's';
    assert s[|a| + 6] == 'e' && s[|a| + 7] == 'e' && s[|a| + 8] == ' ';
    if TagAt(s, j, tag, least) {
      if j <= |a| { NewlineBelow(s, |a|, j, tag); }
      assert s[j] == s[j..j + |tag|][0];
      assert s[j + 1] == s[j..j + |tag|][1];
    }
  }

  lemma SeeMatches(a: string, x: string)
    requires x != "" && '\n' !in x
    ensures TagAt(a + NEXT + x, |a| + 4, SEE, 1)
  {
    var s := a + NEXT + x;
    assert s[|s| - 1] == x[|x| - 1];
    assert s[|a| + 4..|a| + 9] == SEE;
    assert s[|a| + 9..|s|] == x;
  }

  lemma SeeOnLastLine(a: string, x: string)
    requires x != "" && '\n' !in x
    ensures FirstTag(a + NEXT + x, 0, SEE, 1) == Some(|a| + 4)
  {
    SeeMatches(a, x);
    FirstTagIsFirst(a + NEXT + x, 0, SEE, 1);
    TagOnLastLine(a, x, SEE, 1, FirstTag(a + NEXT + x, 0, SEE, 1).value);
  }

  lemma MatchShiftsUp(b: string, x: string, tag: string, least: nat, c: nat)
    requires x != "" && '\n' !in x && FirstTag(x, 0, tag, least) == Some(c)
    ensures var r := FirstTag(b + x, 0, tag, least); r.Some? && r.value <= |b| + c
  {
    TagInTail(b, x, tag, least, |b| + c);
    FirstTagIsFirst(b + x, 0, tag, least);
  }

  lemma MatchShiftsDown(b: string, x: string, tag: string, least: nat, r: nat)
    requires x != "" && '\n' !in x && |b| <= r && FirstTag(b + x, 0, tag, least) == Some(r)
    ensures var q := FirstTag(x, 0, tag, least); q.Some? && |b| + q.value <= r
  {
    TagInTail(b, x, tag, least, r);
    FirstTagIsFirst(x, 0, tag, least);
  }

  /** If no tag matches in the first part, the first match is that of the second. */
  lemma FirstTagShifts(b: string, x: string, tag: string, least: nat, r: Option<nat>, q: Option<nat>)
    requires x != "" && '\n' !in x && FirstTag(b + x, 0, tag, least) == r && FirstTag(x, 0, tag, least) == q
    requires r.Some? ==> |b| <= r.value
    ensures r == match q case None => None case Some(c) => Some(|b| + c)
  {
    if q.Some? { MatchShiftsUp(b, x, tag, least, q.value); }
    if r.Some? { MatchShiftsDown(b, x, tag, least, r.value); }
  }

  lemma CallbackOnLastLine(a: string, x: string)
    requires x != "" && '\n' !in x
    ensures FirstTag(a + NEXT + x, 0, CALLBACK, 0) ==
            match FirstTag(x, 0, CALLBACK, 0) case None => None case Some(c) => Some(|a + NEXT| + c)
  {
    var r := FirstTag(a + NEXT + x, 0, CALLBACK, 0);
    if r.Some? && r.value < |a + NEXT| { TagOnLastLine(a, x, CALLBACK, 0, r.value); }
    FirstTagShifts(a + NEXT, x, CALLBACK, 0, r, FirstTag(x, 0, CALLBACK, 0));
  }

  lemma SpliceShifts(b: string, x: string, c: nat, t: string, end: nat)
    requires c <= |x| && end == |b + x|
    ensures (b + x)[..|b| + c] + (t + (b + x)[end..]) == b + (x[..c] + t)
  {}

  lemma LastLineEnd(b: string, x: string)
    requires x != "" && '\n' !in x
    ensures LineEnd(b + x) == |b + x|
  {
    assert (b + x)[|b + x| - 1] == x[|x| - 1];
  }

  lemma ReplaceShifts(b: string, x: string, returnType: string, c: nat)
    requires x != "" && '\n' !in x && c <= |x|
    requires FirstTag(b + x, 0, CALLBACK, 0) == Some(|b| + c) && FirstTag(x, 0, CALLBACK, 0) == Some(c)
    ensures ReplaceCallback(b + x, returnType) == b + CallbackReplaced(x, returnType)
  {
    LastLineEnd(b, x);
    SpliceShifts(b, x, c, Returned(returnType), LineEnd(b + x));
  }

  lemma NothingReplaced(s: string, returnType: string)
    requires FirstTag(s, 0, CALLBACK, 0).None?
    ensures ReplaceCallback(s, returnType) == s && CallbackReplaced(s, returnType) == s
  {
    assert s + "" == s;
  }

  lemma CallbackAfterSee(a: string, x: string, returnType: string)
    requires x != "" && '\n' !in x
    ensures ReplaceCallback(a + NEXT + x, returnType) == a + NEXT + CallbackReplaced(x, returnType)
  {
    CallbackOnLastLine(a, x);
    match FirstTag(x, 0, CALLBACK, 0)
    case None => NothingReplaced(a + NEXT + x, returnType); NothingReplaced(x, returnType);
    case Some(c) => ReplaceShifts(a + NEXT, x, returnType, c);
  }

  lemma OneLineTag(s: string, tag: string)
    requires '\n' !in s
    ensures FirstTag(s, 0, tag, 0).None? <==> !Contains(s, tag)
  {
    OneLineEnd(s);
    FirstTagIsFirst(s, 0, tag, 0);
    if p: nat :| p <= |s| && At(s, p, tag) {
      assert TagAt(s, p, tag, 0);
    }
  }

  lemma ContainsChar(s: string, t: string, k: nat)
    requires Contains(s, t) && k < |t|
    ensures t[k] in s
  {
    var p :| 0 <= p <= |s| && At(s, p, t);
    assert s[p + k] == s[p..p + |t|][k];
  }

  lemma ReturnTag(rest: string)
    ensures var t := "@return " + rest; t[1] == 'r' && forall k :: 1 <= k < 8 ==> t[k] != '@'
  {
    var t := "@return " + rest;
    assert t[1] == 'r' && t[2] == 'e' && t[3] == 't' && t[4] == 'u' && t[5] == 'r' && t[6] == 'n' && t[7] == ' ';
  }

  lemma CallbackInReturned(rest: string)
    requires Contains("@return " + rest, CALLBACK)
    ensures '@' in rest
  {
    var t := "@return " + rest;
    ReturnTag(rest);
    var p :| 0 <= p <= |t| && At(t, p, CALLBACK);
    assert t[p] == t[p..p + |CALLBACK|][0] && t[p + 1] == t[p..p + |CALLBACK|][1];
    assert rest[p - 8] == t[p];
  }

  lemma ReturnedHasNoCallback(returnType: string)
    requires '@' !in returnType
    ensures !Contains(Returned(returnType), CALLBACK)
  {
    var rest := returnType + COMPLETION;
    assert Returned(returnType) == "@return " + rest && '@' !in COMPLETION;
    if Contains("@return " + rest, CALLBACK) { CallbackInReturned(rest); }
  }

  lemma EventInJoined(a: string, b: string)
    requires Contains(a + b, EVENT) && '_' !in a && a != "" && a[|a| - 1] !in EVENT
    ensures Contains(b, EVENT)
  {
    InOnePart(a, b, EVENT);
    assert EVENT[7] == '_';
    if Contains(a, EVENT) { ContainsChar(a, EVENT, 7); }
  }

  lemma EventBefore(a: string, b: string)
    requires Contains(a + b, EVENT) && '_' !in b && b != "" && b[0] !in EVENT
    ensures Contains(a, EVENT)
  {
    InOnePart(a, b, EVENT);
    if Contains(b, EVENT) {
      assert EVENT[7] == '_';
      ContainsChar(b, EVENT, 7);
    }
  }

  lemma EventBeforeCompletion(a: string)
    requires Contains(a + COMPLETION, EVENT)
    ensures Contains(a, EVENT)
  {
    EventBefore(a, COMPLETION);
  }

  lemma ReturnedHasNoEvent(returnType: string)
    requires !Contains(returnType, EVENT)
    ensures !Contains(Returned(returnType), EVENT)
  {
    var rest := returnType + COMPLETION;
    assert Returned(returnType) == "@return " + rest;
    if Contains("@return " + rest, EVENT) {
      EventInJoined("@return ", rest);
      EventBeforeCompletion(returnType);
    }
  }

  lemma InsertedHasNoEvent(functionName: string)
    requires !Contains(functionName, EVENT)
    ensures !Contains(Inserted(functionName), EVENT)
  {
    if Contains(Inserted(functionName), EVENT) { EventInJoined("@see dpp::cluster::", functionName); }
  }

  lemma ReturnedHasNoRemark(returnType: string)
    requires '*' !in returnType
    ensures !Contains(Lower(Returned(returnType)), SUCCESS)
  {
    NoStarNoRemark(Returned(returnType), 0);
  }

  lemma TagOfPrefix(x: string, c: nat, p: nat, tag: string)
    requires '\n' !in x && c <= |x| && At(x[..c], p, tag)
    ensures TagAt(x, p, tag, 0)
  {
    OneLineEnd(x);
    assert x[p..p + |tag|] == x[..c][p..p + |tag|];
  }

  lemma CutHasNoCallback(x: string)
    requires '\n' !in x
    ensures !Contains(Cut(x), CALLBACK) && '\n' !in Cut(x)
  {
    OneLineTag(x, CALLBACK);
    match FirstTag(x, 0, CALLBACK, 0)
    case None =>
    case Some(c) =>
      OneLineEnd(x);
      FirstTagIsFirst(x, 0, CALLBACK, 0);
      if p: nat :| p <= |x[..c]| && At(x[..c], p, CALLBACK) {
        TagOfPrefix(x, c, p, CALLBACK);
      }
  }

  lemma CallbackHasOneAt()
    ensures '@' !in CALLBACK[1..]
  {}

  lemma CutAndReturned(c: string, t: string)
    requires !Contains(c, CALLBACK) && !Contains(t, CALLBACK) && t != "" && t[0] == '@'
    ensures !Contains(c + t, CALLBACK)
  {
    CallbackHasOneAt();
    if Contains(c + t, CALLBACK) { InOnePart(c, t, CALLBACK); }
  }

  lemma CallbackReplacedIsFinal(x: string, returnType: string)
    requires x != "" && '\n' !in x && Plain(returnType)
    ensures Final(CallbackReplaced(x, returnType))
  {
    var y, t := CallbackReplaced(x, returnType), Returned(returnType);
    CutHasNoCallback(x);
    ReturnedHasNoCallback(returnType);
    CutAndReturned(Cut(x), t);
    if FirstTag(x, 0, CALLBACK, 0).None? { assert y == Cut(x); }
    OneLineTag(y, CALLBACK);
  }

  /** What is inserted between two at signs adds no remark. */
  lemma RemarkAroundSee(a: string, functionName: string, x: string)
    requires '*' !in functionName
    ensures Contains(Lower(a + Inserted(functionName) + NEXT + x), SUCCESS) <==>
            Contains(Lower(a), SUCCESS) || Contains(Lower("@see " + x), SUCCESS)
  {
    var mid := Inserted(functionName) + "\n * ";
    var rest := mid + ("@see " + x);
    assert mid[..|mid| - 2] == Inserted(functionName) + "\n ";
    NoStarNoRemark(mid, 2);
    RemarkInParts(mid, "@see " + x);
    RemarkInParts(a, rest);
    assert a + Inserted(functionName) + NEXT + x == a + rest;
  }

  lemma RemarkInCallbackReplaced(a: string, x: string, returnType: string)
    requires Plain(returnType)
    ensures Contains(Lower(a + CallbackReplaced(x, returnType)), SUCCESS) <==> Contains(Lower(a + Cut(x)), SUCCESS)
  {
    if FirstTag(x, 0, CALLBACK, 0).None? {
      assert Cut(x) + "" == Cut(x);
    } else {
      ReturnedHasNoRemark(returnType);
      RemarkInParts(a + Cut(x), Returned(returnType));
      assert a + (Cut(x) + Returned(returnType)) == a + Cut(x) + Returned(returnType);
    }
  }

  // ---------------------------------------------------------------- lines that have been rewritten

  predicate NoTab(s: string) {
    s == "" || s[0] != '\t'
  }

  lemma {:induction false} NoTabLeft(s: string)
    ensures NoTab(StripTabs(s)) && ('\n' !in s ==> '\n' !in StripTabs(s))
    decreases |s|
  {
    if s != "" && s[0] == '\t' {
      NoTabLeft(s[1..]);
    }
  }

  /** A see tag has been expanded after `head`; only the last line can be expanded further. */
  ghost predicate Grown(s: string, head: string) {
    && NoTab(s) && !Contains(Lower(s), SUCCESS)
    && exists a, x :: s == head + a + NEXT + x && a != "" && CleanTail(a) && Final(x)
  }

  /** No rewriting changes the line any more. */
  ghost predicate Still(s: string) {
    NoTab(s) && !Contains(Lower(s), SUCCESS) && FirstTag(s, 0, SEE, 1).None? && FirstTag(s, 0, CALLBACK, 0).None?
  }

  /** What a line `t` without leading tabs is after any number of rewritings, but at least one. */
  ghost predicate Settled(t: string, s: string) {
    if Contains(Lower(Kept(t)), SUCCESS) then s == ""
    else Grown(s, Head(t)) || (Still(s) && exists u :: s == Head(t) + u && CleanTail(u))
  }

  lemma NewlineInTag(a: string, t: string, p: nat, tag: string)
    requires p <= |a| < p + |tag| && At(a + "\n" + t, p, tag)
    ensures '\n' in tag
  {
    var s := a + "\n" + t;
    assert s[|a|] == '\n';
    assert tag[|a| - p] == s[p..p + |tag|][|a| - p];
  }

  /** A new line after a clean text keeps it clean. */
  lemma CleanExtends(a: string, t: string)
    requires a != "" && CleanTail(a)
    ensures CleanTail(a + "\n" + t)
  {
    var u := a + "\n" + t;
    forall j: nat | At(u, j, EVENT) ensures '\n' in u[..j] {
      if |a| < j {
        assert u[..j][|a|] == '\n';
      } else if |a| < j + |EVENT| {
        NewlineInTag(a, t, j, EVENT);
      } else {
        assert a[j..j + |EVENT|] == u[j..j + |EVENT|];
        assert u[..j] == a[..j];
      }
    }
  }

  lemma GrownTailIsClean(a: string, x: string)
    requires a != "" && CleanTail(a)
    ensures CleanTail(a + NEXT + x)
  {
    CleanExtends(a, " * @see " + x);
    assert a + NEXT + x == a + "\n" + (" * @see " + x);
  }

  lemma Regrouped(b: string, i: string, n: string, x: string)
    ensures b + (i + n + x) == b + i + n + x
  {}

  lemma SeeReplacedAt(s: string, b: string, x: string, functionName: string)
    requires s == b + SEE + x && FirstTag(s, 0, SEE, 1) == Some(|b|)
    ensures ReplaceSee(s, functionName) == b + Inserted(functionName) + NEXT + x
  {
    assert s[..|b|] == b && s[|b| + |SEE|..] == x;
    Regrouped(b, Inserted(functionName), NEXT, x);
  }

  const BREAK := "\n * "

  lemma NextLine(p: string, x: string)
    ensures p + NEXT + x == p + BREAK + SEE + x
  {
    assert NEXT == BREAK + SEE;
  }

  lemma NoTabStrip(s: string)
    requires NoTab(s)
    ensures StripTabs(s) == s
  {}

  /** The see tag on the last line is expanded. */
  lemma SeeExpanded(p: string, x: string, functionName: string)
    requires Final(x)
    ensures ReplaceSee(p + NEXT + x, functionName) == p + BREAK + Inserted(functionName) + NEXT + x
  {
    var b := p + BREAK;
    NextLine(p, x);
    SeeOnLastLine(p, x);
    SeeReplacedAt(p + NEXT + x, b, x, functionName);
  }

  lemma ExpandedHasNoRemark(p: string, x: string, functionName: string)
    requires '*' !in functionName && !Contains(Lower(p + NEXT + x), SUCCESS)
    ensures !Contains(Lower(p + BREAK + Inserted(functionName) + NEXT + x), SUCCESS)
  {
    var b := p + BREAK;
    NextLine(p, x);
    assert p + NEXT + x == b + (SEE + x);
    RemarkInParts(b, SEE + x);
    RemarkAroundSee(b, functionName, x);
  }

  lemma GrownText(p: string, x: string, q: Request)
    requires Final(x) && Plain(q.functionName) && Plain(q.returnType)
    requires NoTab(p + NEXT + x) && !Contains(Lower(p + NEXT + x), SUCCESS)
    ensures Rewrite(p + NEXT + x, q) == p + BREAK + Inserted(q.functionName) + NEXT + x
    ensures !Contains(Lower(p + BREAK + Inserted(q.functionName) + NEXT + x), SUCCESS)
  {
    NoTabStrip(p + NEXT + x);
    SeeExpanded(p, x, q.functionName);
    ExpandedHasNoRemark(p, x, q.functionName);
    CallbackAfterSee(p + BREAK + Inserted(q.functionName), x, q.returnType);
    assert CallbackReplaced(x, q.returnType) == x;
  }

  lemma Regrouped5(h: string, a: string, b: string, i: string, n: string, x: string)
    ensures h + a + b + i + n + x == h + (a + b + i) + n + x
  {}

  lemma GrownAgain(head: string, a: string, x: string, i: string)
    requires a != "" && CleanTail(a) && Final(x) && NoTab(head + a + NEXT + x)
    requires !Contains(Lower(head + a + BREAK + i + NEXT + x), SUCCESS)
    ensures Grown(head + a + BREAK + i + NEXT + x, head)
  {
    var a' := a + BREAK + i;
    Regrouped5(head, a, BREAK, i, NEXT, x);
    assert a' == a + "\n" + (" * " + i);
    CleanExtends(a, " * " + i);
    assert (head + a' + NEXT + x)[0] == (head + a + NEXT + x)[0];
  }

  /** A line whose see tag has been expanded is expanded again at its last line, and nowhere else. */
  lemma GrownRewrite(s: string, head: string, q: Request)
    requires Grown(s, head) && Plain(q.functionName) && Plain(q.returnType)
    ensures Grown(Rewrite(s, q), head)
  {
    var a, x :| s == head + a + NEXT + x && a != "" && CleanTail(a) && Final(x);
    GrownText(head + a, x, q);
    GrownAgain(head, a, x, Inserted(q.functionName));
  }

  lemma StillRewrite(s: string, q: Request)
    requires Still(s)
    ensures Rewrite(s, q) == s
  {
    NoTabStrip(s);
  }

  lemma AroundTag(t: string, p: nat, tag: string)
    requires At(t, p, tag)
    ensures t == t[..p] + tag + t[p + |tag|..]
  {}

  lemma TagLeavesText(t: string, p: nat, tag: string)
    requires '\n' !in t && TagAt(t, p, tag, 1)
    ensures p + |tag| < |t|
  {
    OneLineEnd(t);
  }

  lemma SeeRewritten(h: string, x: string, q: Request)
    requires x != "" && '\n' !in x && NoTab(h + SEE + x) && FirstTag(h + SEE + x, 0, SEE, 1) == Some(|h|)
    requires Plain(q.functionName) && Plain(q.returnType)
    ensures var s := h + Inserted(q.functionName) + NEXT + CallbackReplaced(x, q.returnType);
            Rewrite(h + SEE + x, q) == if Contains(Lower(s), SUCCESS) then "" else s
  {
    NoTabStrip(h + SEE + x);
    SeeReplacedAt(h + SEE + x, h, x, q.functionName);
    CallbackAfterSee(h + Inserted(q.functionName), x, q.returnType);
  }

  lemma SeeRemark(h: string, x: string, q: Request)
    requires Plain(q.functionName) && Plain(q.returnType)
    ensures Contains(Lower(h + Inserted(q.functionName) + NEXT + CallbackReplaced(x, q.returnType)), SUCCESS) <==>
            Contains(Lower(h + SEE + Cut(x)), SUCCESS)
  {
    RemarkAroundSee(h, q.functionName, CallbackReplaced(x, q.returnType));
    RemarkInCallbackReplaced(SEE, x, q.returnType);
    RemarkInParts(h, SEE + Cut(x));
    assert h + (SEE + Cut(x)) == h + SEE + Cut(x);
  }

  lemma SeeGrows(h: string, x: string, q: Request)
    requires x != "" && '\n' !in x && NoTab(h + SEE + x) && Plain(q.functionName) && Plain(q.returnType)
    requires !Contains(Lower(h + Inserted(q.functionName) + NEXT + CallbackReplaced(x, q.returnType)), SUCCESS)
    ensures Grown(h + Inserted(q.functionName) + NEXT + CallbackReplaced(x, q.returnType), h)
  {
    var a := Inserted(q.functionName);
    CallbackReplacedIsFinal(x, q.returnType);
    InsertedHasNoEvent(q.functionName);
    assert CleanTail(a) by {
      forall j: nat ensures !At(a, j, EVENT) {}
    }
    assert (h + a + NEXT + CallbackReplaced(x, q.returnType))[0] == if h == "" then '@' else (h + SEE + x)[0];
  }

  lemma FirstRewriteSee(t: string, p: nat, q: Request)
    requires '\n' !in t && NoTab(t) && FirstTag(t, 0, SEE, 1) == Some(p) && Plain(q.functionName) && Plain(q.returnType)
    ensures Settled(t, Rewrite(t, q))
  {
    TagLeavesText(t, p, SEE);
    AroundTag(t, p, SEE);
    var h, x := t[..p], t[p + |SEE|..];
    SeeRewritten(h, x, q);
    SeeRemark(h, x, q);
    assert Kept(t) == h + SEE + Cut(x);
    if !Contains(Lower(Kept(t)), SUCCESS) {
      SeeGrows(h, x, q);
    }
  }

  lemma ReturnedOneAt(returnType: string)
    requires '@' !in returnType
    ensures var t := Returned(returnType); |t| > 8 && t[1] == 'r' && forall k :: 0 < k < |t| ==> t[k] != '@'
  {
    var rest := returnType + COMPLETION;
    var t := Returned(returnType);
    assert t == "@return " + rest && '@' !in COMPLETION;
    ReturnTag(rest);
    forall k | 8 <= k < |t| ensures t[k] != '@' { assert t[k] == rest[k - 8]; }
  }

  lemma SeeChars(s: string, j: nat)
    requires At(s, j, SEE)
    ensures s[j] == '@' && s[j + 1] == 's' && forall i :: j < i < j + |SEE| ==> s[i] != '@'
  {
    forall k | j <= k < j + |SEE| ensures s[k] == SEE[k - j] { assert s[k] == s[j..j + |SEE|][k - j]; }
  }

  /** A see tag in a line that ends with the return tag stands before that one. */
  lemma SeeInReplaced(c: string, returnType: string, j: nat)
    requires Plain(returnType) && At(c + Returned(returnType), j, SEE)
    ensures j + |SEE| <= |c|
  {
    var s, t := c + Returned(returnType), Returned(returnType);
    SeeChars(s, j);
    ReturnedOneAt(returnType);
    assert t[0] == '@' && forall k :: 0 <= k < |t| ==> s[|c| + k] == t[k];
  }

  lemma TagInPrefix(t: string, c: nat, s: string, j: nat, tag: string)
    requires '\n' !in t && c < |t| && c <= |s| && s[..c] == t[..c] && At(s, j, tag) && j + |tag| <= c
    ensures TagAt(t, j, tag, 1)
  {
    OneLineEnd(t);
    assert t[j..j + |tag|] == t[..c][j..j + |tag|];
    assert s[j..j + |tag|] == s[..c][j..j + |tag|];
  }

  /** Without a see tag none appears. */
  lemma NoSeeInCut(t: string, c: nat, returnType: string)
    requires '\n' !in t && FirstTag(t, 0, SEE, 1).None? && Plain(returnType) && FirstTag(t, 0, CALLBACK, 0) == Some(c)
    ensures FirstTag(t[..c] + Returned(returnType), 0, SEE, 1).None?
  {
    var s := t[..c] + Returned(returnType);
    var r := FirstTag(s, 0, SEE, 1);
    if r.Some? {
      SeeInReplaced(t[..c], returnType, r.value);
      OneLineEnd(t);
      TagInPrefix(t, c, s, r.value, SEE);
      FirstTagIsFirst(t, 0, SEE, 1);
    }
  }

  lemma FirstRewriteUntagged(t: string, q: Request)
    requires NoTab(t) && FirstTag(t, 0, SEE, 1).None? && FirstTag(t, 0, CALLBACK, 0).None?
    ensures Settled(t, Rewrite(t, q))
  {
    NoTabStrip(t);
    assert t == Head(t) + "" && CleanTail("");
  }

  lemma CallbackRewritten(t: string, c: nat, q: Request)
    requires '\n' !in t && NoTab(t) && FirstTag(t, 0, SEE, 1).None? && FirstTag(t, 0, CALLBACK, 0) == Some(c)
             && Plain(q.returnType)
    ensures var s := t[..c] + Returned(q.returnType);
            && Rewrite(t, q) == (if Contains(Lower(Kept(t)), SUCCESS) then "" else s)
            && (!Contains(Lower(Kept(t)), SUCCESS) ==> !Contains(Lower(s), SUCCESS))
  {
    NoTabStrip(t);
    CallbackOnOneLine(t, q.returnType);
    ReturnedHasNoRemark(q.returnType);
    RemarkInParts(t[..c], Returned(q.returnType));
  }

  lemma FirstRewriteCallback(t: string, c: nat, q: Request)
    requires '\n' !in t && NoTab(t) && FirstTag(t, 0, SEE, 1).None? && FirstTag(t, 0, CALLBACK, 0) == Some(c)
             && Plain(q.returnType)
    ensures Settled(t, Rewrite(t, q))
  {
    var u := Returned(q.returnType);
    CallbackRewritten(t, c, q);
    NoSeeInCut(t, c, q.returnType);
    CallbackReplacedIsFinal(t, q.returnType);
    ReturnedHasNoEvent(q.returnType);
    assert CleanTail(u) by {
      forall j: nat ensures !At(u, j, EVENT) {}
    }
    assert (t[..c] + u)[0] == if c == 0 then '@' else t[0];
  }

  lemma FirstRewrite(t: string, q: Request)
    requires '\n' !in t && NoTab(t) && Plain(q.functionName) && Plain(q.returnType)
    ensures Settled(t, Rewrite(t, q))
  {
    match FirstTag(t, 0, SEE, 1)
    case Some(p) => FirstRewriteSee(t, p, q);
    case None =>
      match FirstTag(t, 0, CALLBACK, 0) {
        case Some(c) => FirstRewriteCallback(t, c, q);
        case None => FirstRewriteUntagged(t, q);
      }
  }

  lemma NextRewrite(t: string, s: string, q: Request)
    requires Settled(t, s) && Plain(q.functionName) && Plain(q.returnType)
    ensures Settled(t, Rewrite(s, q))
  {
    if !Contains(Lower(Kept(t)), SUCCESS) {
      if Grown(s, Head(t)) { GrownRewrite(s, Head(t), q); } else { StillRewrite(s, q); }
    }
  }

  lemma SameAsStripped(line: string, q: Request)
    ensures Rewrite(line, q) == Rewrite(StripTabs(line), q)
  {
    NoTabLeft(line);
    NoTabStrip(StripTabs(line));
  }

  /** However often a line is rewritten, and for whichever functions, only the first time counts. */
  lemma {:induction false} RewriteAllSettles(line: string, qs: seq<Request>)
    requires '\n' !in line && qs != [] && PlainRequests(qs)
    ensures Settled(StripTabs(line), RewriteAll(PHP, line, qs))
    decreases |qs|
  {
    var before, q := qs[..|qs| - 1], qs[|qs| - 1];
    NoTabLeft(line);
    if before == [] {
      SameAsStripped(line, q);
      FirstRewrite(StripTabs(line), q);
    } else {
      RewriteAllSettles(line, before);
      NextRewrite(StripTabs(line), RewriteAll(PHP, line, before), q);
    }
  }

  // ---------------------------------------------------------------- which declarations survive

  lemma NothingDeclared(r: Request)
    ensures !Declares("", r)
  {}

  lemma GrownDeclares(s: string, head: string, r: Request)
    requires Grown(s, head) && '@' !in r.functionName
    ensures (Declares(s, r) <==> Declares(head, r)) && Parameters(s, r) == Parameters(head, r)
  {
    var a, x :| s == head + a + NEXT + x && a != "" && CleanTail(a) && Final(x);
    GrownTailIsClean(a, x);
    assert s == head + (a + NEXT + x);
    TailIgnored(head, a + NEXT + x, r);
  }

  lemma SettledDeclares(t: string, s: string, r: Request)
    requires Settled(t, s) && '@' !in r.functionName
    ensures Declares(s, r) <==> Declares(Head(t), r) && !Contains(Lower(Kept(t)), SUCCESS)
    ensures Declares(s, r) ==> Parameters(s, r) == Parameters(Head(t), r)
  {
    if Contains(Lower(Kept(t)), SUCCESS) {
      NothingDeclared(r);
    } else if Grown(s, Head(t)) {
      GrownDeclares(s, Head(t), r);
    } else {
      var u :| s == Head(t) + u && CleanTail(u);
      TailIgnored(Head(t), u, r);
    }
  }

  lemma TagBegins(t: string, p: nat, tag: string)
    requires At(t, p, tag) && tag != "" && tag[0] == '@'
    ensures t == t[..p] + t[p..] && Tag(t[p..])
  {
    assert t[p] == t[p..p + |tag|][0];
  }

  lemma HeadIsPrefix(t: string) returns (u: string)
    ensures t == Head(t) + u && Tag(u)
  {
    u := t[|Head(t)|..];
    var see, cut := FirstTag(t, 0, SEE, 1), FirstTag(t, 0, CALLBACK, 0);
    if see.Some? {
      TagBegins(t, see.value, SEE);
    } else if cut.Some? {
      TagBegins(t, cut.value, CALLBACK);
    } else {
      assert t == t + "";
    }
  }

  /** A surviving declaration was one; rewriting makes none. */
  lemma SurvivorDeclares(line: string, r: Request)
    requires Survives(line, r) && '@' !in r.functionName
    ensures Declares(line, r)
  {
    var t := StripTabs(line);
    TabsAreSpace(line);
    var u := HeadIsPrefix(t);
    TailKeepsDeclaration(Head(t), u, r);
  }

  /** The condition foretells every run over a header of single lines, for functions with plain names. */
  lemma SurvivalForetells(rs: seq<Request>)
    requires PlainRequests(rs)
    ensures Foretells(PHP, Survives, Lines(), rs)
    ensures ForetellsText(PHP, SurvivingText, Lines(), rs)
  {
    forall l, qs, r | l in Lines() && qs != [] && Among(qs, rs) && r in rs
      ensures PHP.declares(RewriteAll(PHP, l, qs), r) <==> Survives(l, r)
      ensures Survives(l, r) ==> PHP.declares(l, r)
      ensures PHP.declares(RewriteAll(PHP, l, qs), r) ==>
              PHP.parameters(RewriteAll(PHP, l, qs), r) == SurvivingText(l, r)
    {
      RewriteAllSettles(l, qs);
      SettledDeclares(StripTabs(l), RewriteAll(PHP, l, qs), r);
      if Survives(l, r) { SurvivorDeclares(l, r); }
    }
  }

  // ---------------------------------------------------------------- main results

  /**
   For any header and any emitted functions with plain names: when a function's parameters are
   looked up, they are looked up on the line that declared it in the header as read exactly when
   that line survives, or is the very first.
   */
  lemma LookupSurvives(hs: seq<seq<string>>, rs: seq<Request>, k: nat, i: nat)
    requires HeaderRun(PHP, hs, rs) && k < |rs| && First(PHP, hs[0], rs[k], i)
    requires PlainRequests(rs) && Within(hs[0], Lines())
    ensures First(PHP, hs[k + 1], rs[k], i) <==> i == 0 || Survives(hs[0][i], rs[k])
  {
    SurvivalForetells(rs);
    OwnLookup(PHP, Survives, Lines(), hs, rs, k, i);
  }

  /** And they are the parameters of the header as read exactly when the line survives with their text. */
  lemma ParametersSurvive(hs: seq<seq<string>>, rs: seq<Request>, k: nat, i: nat, p: Option<string>, at: nat)
    requires HeaderRun(PHP, hs, rs) && k < |rs| && First(PHP, hs[0], rs[k], i) && Yields(PHP, hs[k + 1], rs[k], p, at)
    requires PlainRequests(rs) && Within(hs[0], Lines())
    ensures Yields(PHP, hs[0], rs[k], p, at) <==>
            i == 0 || (Survives(hs[0][i], rs[k]) && SurvivingText(hs[0][i], rs[k]) == Parameters(hs[0][i], rs[k]))
  {
    SurvivalForetells(rs);
    OwnParameters(PHP, Survives, SurvivingText, Lines(), hs, rs, k, i, p, at);
  }

  /** A function the header as read does not declare is never found, whatever is rewritten. */
  lemma UndeclaredStays(hs: seq<seq<string>>, rs: seq<Request>, m: nat, q: Request)
    requires HeaderRun(PHP, hs, rs) && m <= |rs| && q in rs && Undeclared(PHP, hs[0], q)
    requires PlainRequests(rs) && Within(hs[0], Lines())
    ensures Undeclared(PHP, hs[m], q)
  {
    SurvivalForetells(rs);
    UndeclaredForetold(PHP, Survives, Lines(), hs, rs, m, q);
  }

  // ---------------------------------------------------------------- headers without tagged declarations

  /** A line that begins as a declaration carries neither tag. */
  ghost predicate TagFree(line: string) {
    StartsVoid(line) ==> !Contains(line, SEE) && !Contains(line, CALLBACK)
  }

  ghost function TagFreeLines(): iset<string> {
    iset l | TagFree(l)
  }

  predicate Unremarked(line: string, r: Request) {
    Declares(line, r) && !Contains(Lower(line), SUCCESS)
  }

  lemma TagFreeRewrite(line: string, q: Request, r: Request)
    requires TagFree(line)
    ensures TagFree(Rewrite(line, q)) && !Contains(Lower(Rewrite(line, q)), SUCCESS)
    ensures Declares(Rewrite(line, q), r) <==> Unremarked(line, r)
    ensures Declares(Rewrite(line, q), r) ==> Parameters(Rewrite(line, q), r) == Parameters(line, r)
  {
    if StartsVoid(line) {
      RemarkUnmakesDeclaration(line, q, r);
      StripTabsKeepsAbsent(line, SEE);
      StripTabsKeepsAbsent(line, CALLBACK);
      NoTagNoMatch(StripTabs(line), SEE, 1);
      NoTagNoMatch(StripTabs(line), CALLBACK, 0);
      TabsAreSpace(line);
    } else {
      RewriteKeepsStart(line, q);
      if Declares(line, r) { DeclarationStartsVoid(line, r); }
      if Declares(Rewrite(line, q), r) { DeclarationStartsVoid(Rewrite(line, q), r); }
    }
  }

  lemma {:induction false} TagFreeRewriteAll(line: string, qs: seq<Request>, r: Request)
    requires TagFree(line) && qs != []
    ensures var s := RewriteAll(PHP, line, qs);
            && TagFree(s) && !Contains(Lower(s), SUCCESS)
            && (Declares(s, r) <==> Unremarked(line, r))
            && (Declares(s, r) ==> Parameters(s, r) == Parameters(line, r))
    decreases |qs|
  {
    var before, q := qs[..|qs| - 1], qs[|qs| - 1];
    if before == [] {
      TagFreeRewrite(line, q, r);
    } else {
      TagFreeRewriteAll(line, before, r);
      TagFreeRewrite(RewriteAll(PHP, line, before), q, r);
    }
  }

  lemma RemarkedDeclared(line: string, r: Request)
    ensures Unremarked(line, r) ==> PHP.declares(line, r)
  {}

  lemma RemarkForetells(rs: seq<Request>)
    ensures Foretells(PHP, Unremarked, TagFreeLines(), rs) && ForetellsText(PHP, Parameters, TagFreeLines(), rs)
  {
    forall l, qs, r | l in TagFreeLines() && qs != [] && Among(qs, rs) && r in rs
      ensures PHP.declares(RewriteAll(PHP, l, qs), r) <==> Unremarked(l, r)
      ensures Unremarked(l, r) ==> PHP.declares(l, r)
      ensures PHP.declares(RewriteAll(PHP, l, qs), r) ==> PHP.parameters(RewriteAll(PHP, l, qs), r) == Parameters(l, r)
    {
      TagFreeRewriteAll(l, qs, r);
      RemarkedDeclared(l, r);
    }
  }

  /**
   Without tagged declarations, whatever the names: the parameters are those of the header as read
   exactly when the declaration carries no success remark.
   */
  lemma ParametersUnremarked(hs: seq<seq<string>>, rs: seq<Request>, k: nat, i: nat, p: Option<string>, at: nat)
    requires HeaderRun(PHP, hs, rs) && k < |rs| && First(PHP, hs[0], rs[k], i) && Yields(PHP, hs[k + 1], rs[k], p, at)
    requires forall j :: 0 <= j < |hs[0]| ==> TagFree(hs[0][j])
    ensures First(PHP, hs[k + 1], rs[k], i) <==> i == 0 || !Contains(Lower(hs[0][i]), SUCCESS)
    ensures Yields(PHP, hs[0], rs[k], p, at) <==> i == 0 || !Contains(Lower(hs[0][i]), SUCCESS)
  {
    RemarkForetells(rs);
    OwnLookup(PHP, Unremarked, TagFreeLines(), hs, rs, k, i);
    OwnParameters(PHP, Unremarked, Parameters, TagFreeLines(), hs, rs, k, i, p, at);
  }

  // ---------------------------------------------------------------- a misled lookup

  const BEFORE_EVENT := "int a = 1, "
  const AFTER_EVENT := " callback); /"
  const REMARK := "* On success */"

  /** void f(int a = 1, command_completion_event_t callback); with the remark after it */
  const REMARKED := "void f(" + (BEFORE_EVENT + EVENT + (AFTER_EVENT + REMARK))

  const ASKED := Request("f", "confirmation", ["a"])

  lemma {:induction false} FindFromSome(s: string, p: nat, t: string, j: nat)
    requires p <= j <= |s| && At(s, j, t)
    ensures FindFrom(s, p, t).Some?
    decreases j - p
  {
    if p < j {
      FindFromSome(s, p + 1, t, j);
    }
  }

  lemma OneNameInOrder(s: string, name: string, j: nat)
    requires j <= |s| && At(s, j, name)
    ensures InOrder(s, [name])
  {
    FindFromSome(s, 0, name, j);
    var p := FindFrom(s, 0, name).value;
    assert [name][1..] == [] && InOrder(s[p + |name|..], []);
  }

  lemma CallbackFollows(a: string, b: string, names: seq<string>)
    requires '\n' !in a && InOrder(a, names) && "callback" <= TrimLeft(b)
    ensures CallbackFits(a + EVENT + b, |a|, names)
  {
    var w := a + EVENT + b;
    assert w[..|a|] == a && w[|a|..|a| + |EVENT|] == EVENT && w[|a| + |EVENT|..] == b;
  }

  lemma AfterSpace(b: string)
    requires b != "" && Space(b[0]) && "callback" <= b[1..]
    ensures "callback" <= TrimLeft(b)
  {}

  lemma RemarkedNames()
    ensures InOrder(BEFORE_EVENT, ["a"]) && '\n' !in BEFORE_EVENT
  {
    assert At(BEFORE_EVENT, 4, "a");
    OneNameInOrder(BEFORE_EVENT, "a", 4);
  }

  lemma RemarkedCallback()
    ensures "callback" <= TrimLeft(AFTER_EVENT + REMARK)
  {
    var b := AFTER_EVENT + REMARK;
    assert AFTER_EVENT == " callback" + "); /" && b[1..] == "callback" + ("); /" + REMARK);
    AfterSpace(b);
  }

  lemma RemarkedFits()
    ensures CallbackFits(BEFORE_EVENT + EVENT + (AFTER_EVENT + REMARK), |BEFORE_EVENT|, ["a"])
  {
    RemarkedNames();
    RemarkedCallback();
    CallbackFollows(BEFORE_EVENT, AFTER_EVENT + REMARK, ["a"]);
  }

  lemma OpenedHead(w: string)
    ensures TrimLeft("void f(" + w) == "void f(" + w && Opened("void f(" + w, "f") == Some(w)
  {
    var s := "void f(" + w;
    assert s[4..][1..] == "f(" + w;
    assert TrimLeft(s[4..]) == "f(" + w;
    assert ("f(" + w)[1..] == "(" + w && ("(" + w)[1..] == w;
  }

  lemma DeclaresOpened(s: string, r: Request, w: string)
    requires TrimLeft(s) == s && Opened(s, r.functionName) == Some(w)
    requires exists p: nat :: p <= |w| && CallbackFits(w, p, r.names)
    ensures Declares(s, r)
  {
    CapturedOpened(s, r);
    LastFit(w, |w|, r.names);
  }

  lemma RemarkedDeclares()
    ensures Declares(REMARKED, ASKED)
  {
    var w := BEFORE_EVENT + EVENT + (AFTER_EVENT + REMARK);
    OpenedHead(w);
    RemarkedFits();
    DeclaresOpened(REMARKED, ASKED, w);
  }

  lemma LowerRemark()
    ensures Contains(Lower(REMARK), SUCCESS)
  {
    var s := Lower(REMARK);
    assert s[0] == '*' && s[1] == ' ' && s[2] == 'o' && s[3] == 'n' && s[4] == ' ' && s[5] == 's' && s[6] == 'u';
    assert s[7] == 'c' && s[8] == 'c' && s[9] == 'e' && s[10] == 's' && s[11] == 's' && s[12] == ' ';
    assert s[..|SUCCESS|] == SUCCESS;
    assert At(s, 0, SUCCESS);
  }

  lemma EndsWithRemark(a: string, s: string)
    requires s == a + REMARK
    ensures Contains(Lower(s), SUCCESS)
  {
    LowerRemark();
    assert Lower(s) == Lower(a) + Lower(REMARK);
    PartContains(Lower(a), Lower(REMARK), SUCCESS);
  }

  lemma RemarkedHasRemark()
    ensures Contains(Lower(REMARKED), SUCCESS)
  {
    EndsWithRemark("void f(" + (BEFORE_EVENT + EVENT + AFTER_EVENT), REMARKED);
  }

  lemma RemarkedHasNoTag()
    ensures !Contains(REMARKED, SEE) && !Contains(REMARKED, CALLBACK)
  {
    assert '@' !in "void f(" && '@' !in BEFORE_EVENT && '@' !in EVENT && '@' !in AFTER_EVENT && '@' !in REMARK;
    assert '@' !in REMARKED;
    if Contains(REMARKED, SEE) { ContainsChar(REMARKED, SEE, 0); }
    if Contains(REMARKED, CALLBACK) { ContainsChar(REMARKED, CALLBACK, 0); }
  }

  lemma RemarkedIsLost()
    ensures Declares(REMARKED, ASKED) && !Declares(Rewrite(REMARKED, ASKED), ASKED)
  {
    RemarkedDeclares();
    RemarkedHasRemark();
    RemarkedHasNoTag();
    RemarkUnmakesDeclaration(REMARKED, ASKED, ASKED);
  }

  lemma SecondLineTaken(a: string, b: string, r: Request)
    requires First(PHP, [a, b], r, 1)
    ensures TakenOnce(PHP, [a, b], r, Rewritten(PHP, [a, b], r, 1, 1))
  {
    var n := NearestExists(PHP, [a, b], r, 1);
    assert Bottom(n) == 1;
  }

  /**
   A header of two lines on which the lookup is misled: the comment of `f` is taken, and with its
   remark the declaration goes.
   */
  lemma MisledLookup()
    ensures var h := ["", REMARKED];
            var h' := Rewritten(PHP, h, ASKED, 1, 1);
            HeaderRun(PHP, [h, h'], [ASKED]) && First(PHP, h, ASKED, 1) && Undeclared(PHP, h', ASKED)
  {
    NothingDeclared(ASKED);
    RemarkedIsLost();
    SecondLineTaken("", REMARKED, ASKED);
  }
}
