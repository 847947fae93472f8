/**
 The lines of the header as text: which of them declare a function, what the rewriting of a
 comment makes of them, and a set of lines on which that rewriting is harmless.

 Function and parameter names are taken as plain text, free of what a pattern or a replacement
 would read as special.
 */
module HeaderSyntax {
  import opened Prelude
  import opened HeaderComments

  const SEE := "@see "
  const CALLBACK := "@param callback "
  const SUCCESS := "* on success "
  const EVENT := "command_completion_event_t"

  /** `\s` */
  predicate Space(c: char) {
    c == ' ' || '\t' <= c <= '\r'
  }

  function TrimLeft(s: string): string {
    if s != "" && Space(s[0]) then TrimLeft(s[1..]) else s
  }

  function TrimRight(s: string): string {
    if s != "" && Space(s[|s| - 1]) then TrimRight(s[..|s| - 1]) else s
  }

  function StripTabs(s: string): string {
    if s != "" && s[0] == '\t' then StripTabs(s[1..]) else s
  }

  predicate At(s: string, p: nat, t: string) {
    p + |t| <= |s| && s[p..p + |t|] == t
  }

  predicate Contains(s: string, t: string) {
    exists p :: 0 <= p <= |s| && At(s, p, t)
  }

  // ---------------------------------------------------------------- the rewriting of a line

  /** Where `$` matches: the end, or before a final newline. */
  function LineEnd(s: string): nat {
    if s != "" && s[|s| - 1] == '\n' then |s| - 1 else |s|
  }

  /** The tag stands at `p` and at least `least` more characters, none a newline, follow it up to the end. */
  predicate TagAt(s: string, p: nat, tag: string, least: nat) {
    p + |tag| + least <= LineEnd(s) && At(s, p, tag) && '\n' !in s[p + |tag|..LineEnd(s)]
  }

  /** The first place where the tag matches. */
  function FirstTag(s: string, p: nat, tag: string, least: nat): (r: Option<nat>)
    ensures r.Some? ==> p <= r.value && TagAt(s, r.value, tag, least)
    decreases |s| - p
  {
    if TagAt(s, p, tag, least) then Some(p)
    else if |s| <= p then None
    else FirstTag(s, p + 1, tag, least)
  }

  const NEXT := "\n * @see "

  function Inserted(functionName: string): string {
    "@see dpp::cluster::" + functionName
  }

  const COMPLETION := " returned object on completion"

  function Returned(returnType: string): string {
    "@return " + returnType + COMPLETION
  }

  function ReplaceSee(s: string, functionName: string): string {
    match FirstTag(s, 0, SEE, 1)
    case None => s
    case Some(p) => s[..p] + (Inserted(functionName) + NEXT + s[p + |SEE|..])
  }

  function ReplaceCallback(s: string, returnType: string): string {
    match FirstTag(s, 0, CALLBACK, 0)
    case None => s
    case Some(p) => s[..p] + (Returned(returnType) + s[LineEnd(s)..])
  }

  function Rewrite(line: string, r: Request): string {
    var s := ReplaceCallback(ReplaceSee(StripTabs(line), r.functionName), r.returnType);
    if Contains(Lower(s), SUCCESS) then "" else s
  }

  predicate Opens(line: string) {
    exists p :: 0 <= p <= |line| && At(line, p, "/**") && TrimLeft(line[p + 3..]) == ""
  }

  // ---------------------------------------------------------------- declarations

  function FindFrom(s: string, p: nat, t: string): (r: Option<nat>)
    requires p <= |s|
    ensures r.Some? ==> p <= r.value && At(s, r.value, t)
    decreases |s| - p
  {
    if At(s, p, t) then Some(p)
    else if p == |s| then None
    else FindFrom(s, p + 1, t)
  }

  /** The names occur in `s` one after the other. */
  predicate InOrder(s: string, names: seq<string>)
    decreases |names|
  {
    if names == [] then true
    else
      match FindFrom(s, 0, names[0])
      case None => false
      case Some(p) => InOrder(s[p + |names[0]|..], names[1..])
  }

  /** The event type, spaces, and the word callback. */
  predicate CallbackAt(s: string, p: nat) {
    At(s, p, EVENT) && "callback" <= TrimLeft(s[p + |EVENT|..])
  }

  /** The callback parameter stands at `p`, on the first line, after the names. */
  predicate CallbackFits(s: string, p: nat, names: seq<string>) {
    p <= |s| && CallbackAt(s, p) && '\n' !in s[..p] && InOrder(s[..p], names)
  }

  /** The greedy match of everything before the callback parameter: up to the last place that fits, at `p` or before. */
  function BeforeCallback(s: string, p: nat, names: seq<string>): Option<string>
    requires p <= |s|
  {
    if CallbackFits(s, p, names) then Some(s[..p])
    else if p == 0 then None
    else BeforeCallback(s, p - 1, names)
  }

  /** The text captured from a line without its leading spaces, if it declares the function. */
  function Captured(s: string, r: Request): Option<string> {
    if "void" <= s && |s| > 4 && Space(s[4]) then
      var name := TrimLeft(s[4..]);
      if r.functionName <= name then
        var open := TrimLeft(name[|r.functionName|..]);
        if open != "" && open[0] == '(' then BeforeCallback(open[1..], |open| - 1, r.names) else None
      else None
    else None
  }

  /** A trailing comma goes, with the spaces after it. */
  function DropComma(s: string): string {
    var t := TrimRight(s);
    if t != "" && t[|t| - 1] == ',' then t[..|t| - 1] else s
  }

  predicate Declares(line: string, r: Request) {
    Captured(TrimLeft(line), r).Some?
  }

  function Parameters(line: string, r: Request): string {
    match Captured(TrimLeft(line), r)
    case Some(text) => DropComma(text)
    case None => ""
  }

  const PHP: Syntax<string> := Syntax(Declares, Rewrite, Opens, Parameters)

  // ---------------------------------------------------------------- where rewriting is harmless

  predicate StartsVoid(line: string) {
    "void" <= TrimLeft(line)
  }

  /** The line has nothing for the rewriting to replace. */
  predicate Untagged(line: string) {
    !Contains(line, SEE) && !Contains(line, CALLBACK) && !Contains(Lower(line), SUCCESS)
  }

  /** Only a line that begins as a declaration does could be spoilt, and only if it carries a tag of a comment. */
  ghost predicate Harmless(line: string) {
    StartsVoid(line) ==> Untagged(line)
  }

  lemma {:induction false} TabsAreSpace(s: string)
    ensures TrimLeft(StripTabs(s)) == TrimLeft(s)
    decreases |s|
  {
    if s != "" && s[0] == '\t' {
      TabsAreSpace(s[1..]);
    }
  }

  lemma SuffixContains(s: string, k: nat, t: string)
    requires k <= |s| && Contains(s[k..], t)
    ensures Contains(s, t)
  {
    var p :| 0 <= p <= |s[k..]| && At(s[k..], p, t);
    assert At(s, p + k, t);
  }

  lemma {:induction false} StripTabsKeepsRemark(s: string)
    ensures Contains(Lower(StripTabs(s)), SUCCESS) <==> Contains(Lower(s), SUCCESS)
    decreases |s|
  {
    if s != "" && s[0] == '\t' {
      StripTabsKeepsRemark(s[1..]);
      assert Lower(s)[1..] == Lower(s[1..]);
      if Contains(Lower(s[1..]), SUCCESS) { SuffixContains(Lower(s), 1, SUCCESS); }
      if p: nat :| p <= |Lower(s)| && At(Lower(s), p, SUCCESS) {
        assert Lower(s)[p..p + |SUCCESS|][0] == '*' && p != 0;
        assert At(Lower(s[1..]), p - 1, SUCCESS);
      }
    }
  }

  lemma {:induction false} StripTabsKeepsAbsent(s: string, t: string)
    requires !Contains(s, t)
    ensures !Contains(StripTabs(s), t)
    decreases |s|
  {
    if s != "" && s[0] == '\t' {
      if Contains(s[1..], t) { SuffixContains(s, 1, t); }
      StripTabsKeepsAbsent(s[1..], t);
    }
  }

  lemma StripTabsKeepsUntagged(s: string)
    requires Untagged(s)
    ensures Untagged(StripTabs(s))
  {
    StripTabsKeepsAbsent(s, SEE);
    StripTabsKeepsAbsent(s, CALLBACK);
    StripTabsKeepsRemark(s);
  }

  lemma NoTagNoMatch(s: string, tag: string, least: nat)
    requires !Contains(s, tag)
    ensures FirstTag(s, 0, tag, least).None?
  {
    var r := FirstTag(s, 0, tag, least);
    if r.Some? && At(s, r.value, tag) {
      assert false;
    }
  }

  /** An untagged line only loses its leading tabs. */
  lemma UntaggedRewrite(line: string, r: Request)
    requires Untagged(line)
    ensures Rewrite(line, r) == StripTabs(line)
  {
    StripTabsKeepsUntagged(line);
    NoTagNoMatch(StripTabs(line), SEE, 1);
    NoTagNoMatch(StripTabs(line), CALLBACK, 0);
  }

  /** Text up to and including an at sign settles whether a line begins as a declaration does. */
  lemma {:induction false} PrefixSettlesStart(s: string, s': string, n: nat)
    requires n < |s| && n < |s'| && s[..n + 1] == s'[..n + 1] && s[n] == '@'
    ensures StartsVoid(s) <==> StartsVoid(s')
    decreases n
  {
    assert forall k :: 0 <= k <= n ==> s[k] == s[..n + 1][k] && s'[k] == s'[..n + 1][k];
    if Space(s[0]) {
      assert s[1..][..n] == s[..n + 1][1..] && s'[1..][..n] == s'[..n + 1][1..];
      PrefixSettlesStart(s[1..], s'[1..], n - 1);
    } else if n >= 4 {
      assert s[..4] == s[..n + 1][..4] && s'[..4] == s'[..n + 1][..4];
    }
  }

  /** Replacing a tag and what follows by a text that begins with an at sign. */
  lemma ReplaceKeepsStart(s: string, p: nat, tag: string, tail: string)
    requires At(s, p, tag) && tag != "" && tag[0] == '@' && tail != "" && tail[0] == '@'
    ensures StartsVoid(s[..p] + tail) <==> StartsVoid(s)
  {
    assert s[p] == s[p..p + |tag|][0];
    assert (s[..p] + tail)[..p + 1] == s[..p] + ['@'] == s[..p + 1];
    PrefixSettlesStart(s, s[..p] + tail, p);
  }

  lemma SeeKeepsStart(s: string, functionName: string)
    ensures StartsVoid(ReplaceSee(s, functionName)) <==> StartsVoid(s)
  {
    match FirstTag(s, 0, SEE, 1)
    case None =>
    case Some(p) => ReplaceKeepsStart(s, p, SEE, Inserted(functionName) + NEXT + s[p + |SEE|..]);
  }

  lemma CallbackKeepsStart(s: string, returnType: string)
    ensures StartsVoid(ReplaceCallback(s, returnType)) <==> StartsVoid(s)
  {
    match FirstTag(s, 0, CALLBACK, 0)
    case None =>
    case Some(p) => ReplaceKeepsStart(s, p, CALLBACK, Returned(returnType) + s[LineEnd(s)..]);
  }

  /** Rewriting never makes a line begin as a declaration does; it can only blank it. */
  lemma RewriteKeepsStart(line: string, r: Request)
    ensures StartsVoid(Rewrite(line, r)) ==> StartsVoid(line)
  {
    TabsAreSpace(line);
    SeeKeepsStart(StripTabs(line), r.functionName);
    CallbackKeepsStart(ReplaceSee(StripTabs(line), r.functionName), r.returnType);
  }

  lemma DeclarationStartsVoid(line: string, r: Request)
    requires Declares(line, r)
    ensures StartsVoid(line)
  {}

  /**
   Without the two tags, a declaration survives the rewriting exactly when it carries no success
   remark: a line with one is blanked.
   */
  lemma RemarkUnmakesDeclaration(line: string, q: Request, r: Request)
    requires !Contains(line, SEE) && !Contains(line, CALLBACK)
    ensures Declares(Rewrite(line, q), r) <==> Declares(line, r) && !Contains(Lower(line), SUCCESS)
  {
    StripTabsKeepsAbsent(line, SEE);
    StripTabsKeepsAbsent(line, CALLBACK);
    NoTagNoMatch(StripTabs(line), SEE, 1);
    NoTagNoMatch(StripTabs(line), CALLBACK, 0);
    StripTabsKeepsRemark(line);
    TabsAreSpace(line);
  }

  /** A harmless line stays harmless, declares what it declared, and with the same parameters. */
  lemma HarmlessRewrite(line: string, q: Request, r: Request)
    requires Harmless(line)
    ensures Harmless(Rewrite(line, q))
    ensures Declares(Rewrite(line, q), r) <==> Declares(line, r)
    ensures Declares(line, r) ==> Parameters(Rewrite(line, q), r) == Parameters(line, r)
  {
    if StartsVoid(line) {
      UntaggedRewrite(line, q);
      StripTabsKeepsUntagged(line);
      TabsAreSpace(line);
    } else {
      RewriteKeepsStart(line, q);
      if Declares(line, r) { DeclarationStartsVoid(line, r); }
      if Declares(Rewrite(line, q), r) { DeclarationStartsVoid(Rewrite(line, q), r); }
    }
  }

  ghost function HarmlessLines(): iset<string> {
    iset l | Harmless(l)
  }

  /**
   With the script's own rewriting, the harmless lines meet what the emission loop asks of a
   header, whatever functions are emitted.
   */
  lemma HarmlessLinesAreSteady(rs: seq<Request>)
    ensures Recognisable(PHP, HarmlessLines(), rs) && SameText(PHP, HarmlessLines(), rs)
  {
    forall l, q, r | l in HarmlessLines() && q in rs && r in rs
      ensures PHP.rewrite(l, q) in HarmlessLines()
      ensures PHP.declares(PHP.rewrite(l, q), r) <==> PHP.declares(l, r)
      ensures PHP.declares(l, r) ==> PHP.parameters(PHP.rewrite(l, q), r) == PHP.parameters(l, r)
    {
      HarmlessRewrite(l, q, r);
    }
  }
}
