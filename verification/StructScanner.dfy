/**
 The line scanner of the coroutine-header generator: a three-state machine over the lines of the
 cluster sources that finds each callback-taking function and works out what it returns.

 A line is known by the patterns it matches and the text they capture.
 */
module StructScanner {
  import opened Prelude

  datatype Signature = Signature(name: string, parameters: string)

  /** `start` is a function head, `closes` a closing brace in the first column; the rest tell the return type. */
  datatype Line = Line(
    start: Option<Signature>,
    closes: bool,
    rest: Option<string>,
    restList: Option<string>,
    restVector: Option<string>,
    confirmation: Option<string>)

  datatype Config = Config(blacklist: set<string>, forced: map<string, string>)

  datatype State = SearchForFunction | InFunction | EndOfFunction

  datatype Definition = Definition(name: string, parameters: string, returnType: string)

  datatype Scanner = Scanner(state: State, functionName: string, parameters: string, returnType: string,
      emitted: seq<Definition>)

  /** PHP's empty() on a string. */
  predicate Empty(s: string) {
    s == "" || s == "0"
  }

  /** The patterns are tried in this order. */
  function Infer(line: Line): Option<string> {
    if line.rest.Some? then line.rest
    else if line.restList.Some? then Some(line.restList.value + "_map")
    else if line.restVector.Some? then Some(line.restVector.value + "_list")
    else line.confirmation
  }

  predicate Forced(cfg: Config, name: string) {
    name in cfg.forced && !Empty(cfg.forced[name])
  }

  function Start(): Scanner {
    Scanner(SearchForFunction, "", "", "", [])
  }

  /** The part of an iteration that looks at the line. */
  function Look(cfg: Config, sc: Scanner, line: Line): Scanner {
    if sc.state.SearchForFunction? && line.start.Some? then
      sc.(functionName := line.start.value.name, parameters := line.start.value.parameters,
          state := if line.start.value.name !in cfg.blacklist then InFunction else sc.state)
    else if sc.state.InFunction? then
      if line.closes then sc.(state := EndOfFunction)
      else if Infer(line).Some? then sc.(returnType := Infer(line).value)
      else if Forced(cfg, sc.functionName) then sc.(returnType := cfg.forced[sc.functionName])
      else sc
    else sc
  }

  /** The part of an iteration that emits a completed function. */
  function Finish(cfg: Config, sc: Scanner): Scanner {
    if sc.state.EndOfFunction? && !Empty(sc.functionName) && !Empty(sc.returnType) then
      Scanner(SearchForFunction, "", "", "",
        if sc.functionName !in cfg.blacklist then
          sc.emitted + [Definition(sc.functionName, sc.parameters, sc.returnType)]
        else sc.emitted)
    else sc
  }

  function Step(cfg: Config, sc: Scanner, line: Line): Scanner {
    Finish(cfg, Look(cfg, sc, line))
  }

  function Scan(cfg: Config, lines: seq<Line>): Scanner {
    if lines == [] then Start() else Step(cfg, Scan(cfg, lines[..|lines| - 1]), lines[|lines| - 1])
  }

  // ---------------------------------------------------------------- the return type of a body

  /** The type recorded after the lines of a body, as the scanner records it. */
  function BodyType(cfg: Config, name: string, body: seq<Line>): string {
    if body == [] then ""
    else
      var line := body[|body| - 1];
      if Infer(line).Some? then Infer(line).value
      else if Forced(cfg, name) then cfg.forced[name]
      else BodyType(cfg, name, body[..|body| - 1])
  }

  /** Without a forced type, the last line to match one of the four patterns decides, by the first that it matches. */
  lemma {:induction false} LastMatchDecides(cfg: Config, name: string, body: seq<Line>, k: nat)
    requires name in cfg.forced ==> cfg.forced[name] == "" || cfg.forced[name] == "0"
    requires k < |body|
    requires body[k].rest.Some? || body[k].restList.Some? || body[k].restVector.Some? || body[k].confirmation.Some?
    requires forall j :: k < j < |body| ==>
               body[j].rest.None? && body[j].restList.None? && body[j].restVector.None? && body[j].confirmation.None?
    ensures var t := BodyType(cfg, name, body);
            && (body[k].rest.Some? ==> t == body[k].rest.value)
            && (body[k].rest.None? && body[k].restList.Some? ==> t == body[k].restList.value + "_map")
            && (body[k].rest.None? && body[k].restList.None? && body[k].restVector.Some? ==>
                  t == body[k].restVector.value + "_list")
            && (body[k].rest.None? && body[k].restList.None? && body[k].restVector.None? ==>
                  t == body[k].confirmation.value)
  {
    if k < |body| - 1 {
      LastMatchDecides(cfg, name, body[..|body| - 1], k);
    }
  }

  lemma {:induction false} NoMatchNoType(cfg: Config, name: string, body: seq<Line>)
    requires name in cfg.forced ==> cfg.forced[name] == "" || cfg.forced[name] == "0"
    requires forall j :: 0 <= j < |body| ==>
               body[j].rest.None? && body[j].restList.None? && body[j].restVector.None? && body[j].confirmation.None?
    ensures BodyType(cfg, name, body) == ""
  {
    if body != [] {
      NoMatchNoType(cfg, name, body[..|body| - 1]);
    }
  }

  /** A forced type overrules every match except one on the very last line of the body. */
  lemma ForcedTypeDecides(cfg: Config, name: string, body: seq<Line>)
    requires name in cfg.forced && cfg.forced[name] != "" && cfg.forced[name] != "0" && body != []
    ensures var t, last := BodyType(cfg, name, body), body[|body| - 1];
            && (last.rest.Some? ==> t == last.rest.value)
            && (last.rest.None? && last.restList.Some? ==> t == last.restList.value + "_map")
            && (last.rest.None? && last.restList.None? && last.restVector.Some? ==>
                  t == last.restVector.value + "_list")
            && (last.rest.None? && last.restList.None? && last.restVector.None? && last.confirmation.Some? ==>
                  t == last.confirmation.value)
            && (last.rest.None? && last.restList.None? && last.restVector.None? && last.confirmation.None? ==>
                  t == cfg.forced[name])
  {}

  /** A forced type of an empty body is of no use. */
  lemma EmptyBodyNoType(cfg: Config, name: string)
    ensures BodyType(cfg, name, []) == ""
  {}

  // ---------------------------------------------------------------- the accepted inputs

  /** A line outside functions, or a whole function. */
  datatype Item = Other(line: Line) | Block(head: Line, body: seq<Line>, close: Line)

  ghost predicate WellFormed(cfg: Config, it: Item) {
    match it
    case Other(line) => line.start.None? || line.start.value.name in cfg.blacklist
    case Block(head, body, close) =>
      && head.start.Some? && head.start.value.name !in cfg.blacklist
      && head.start.value.name != "" && head.start.value.name != "0"
      && (forall k :: 0 <= k < |body| ==> !body[k].closes)
      && close.closes
      && BodyType(cfg, head.start.value.name, body) != "" && BodyType(cfg, head.start.value.name, body) != "0"
  }

  ghost function LinesOf(it: Item): seq<Line> {
    match it
    case Other(line) => [line]
    case Block(head, body, close) => [head] + body + [close]
  }

  ghost function DefinitionsOf(cfg: Config, it: Item): seq<Definition>
    requires WellFormed(cfg, it)
  {
    match it
    case Other(_) => []
    case Block(head, body, _) =>
      [Definition(head.start.value.name, head.start.value.parameters, BodyType(cfg, head.start.value.name, body))]
  }

  ghost predicate AllWellFormed(cfg: Config, items: seq<Item>) {
    forall k :: 0 <= k < |items| ==> WellFormed(cfg, items[k])
  }

  ghost function Flatten(items: seq<Item>): seq<Line> {
    if items == [] then [] else Flatten(items[..|items| - 1]) + LinesOf(items[|items| - 1])
  }

  ghost function Emit(cfg: Config, items: seq<Item>): seq<Definition>
    requires AllWellFormed(cfg, items)
  {
    if items == [] then [] else Emit(cfg, items[..|items| - 1]) + DefinitionsOf(cfg, items[|items| - 1])
  }

  // ---------------------------------------------------------------- acceptance, left to right

  lemma ScanOnePast(cfg: Config, lines: seq<Line>, line: Line)
    ensures Scan(cfg, lines + [line]) == Step(cfg, Scan(cfg, lines), line)
  {}

  lemma BodyTypeOnePast(cfg: Config, name: string, body: seq<Line>, line: Line)
    ensures BodyType(cfg, name, body + [line]) ==
            if Infer(line).Some? then Infer(line).value
            else if Forced(cfg, name) then cfg.forced[name]
            else BodyType(cfg, name, body)
  {}

  /** The scanner between functions, holding no type from an earlier one. */
  ghost predicate Idle(sc: Scanner) {
    sc.state.SearchForFunction? && sc.returnType == ""
  }

  /** The scanner inside the function that `head` opened, after the lines of `body`. */
  ghost predicate Inside(cfg: Config, sc: Scanner, head: Line, body: seq<Line>) {
    && sc.state.InFunction? && head.start.Some? && head.start.value.name !in cfg.blacklist
    && sc.functionName == head.start.value.name && sc.parameters == head.start.value.parameters
    && (forall k :: 0 <= k < |body| ==> !body[k].closes)
    && sc.returnType == BodyType(cfg, sc.functionName, body)
  }

  lemma HeadOpens(cfg: Config, sc: Scanner, head: Line)
    requires Idle(sc) && head.start.Some? && head.start.value.name !in cfg.blacklist
    ensures Inside(cfg, Step(cfg, sc, head), head, []) && Step(cfg, sc, head).emitted == sc.emitted
  {}

  lemma BodyLineStaysInside(cfg: Config, sc: Scanner, head: Line, body: seq<Line>, line: Line)
    requires Inside(cfg, sc, head, body) && !line.closes
    ensures Inside(cfg, Step(cfg, sc, line), head, body + [line]) && Step(cfg, sc, line).emitted == sc.emitted
  {
    BodyTypeOnePast(cfg, sc.functionName, body, line);
  }

  lemma {:induction false} ScanBody(cfg: Config, before: seq<Line>, head: Line, body: seq<Line>)
    requires Idle(Scan(cfg, before)) && head.start.Some? && head.start.value.name !in cfg.blacklist
    requires forall k :: 0 <= k < |body| ==> !body[k].closes
    ensures Inside(cfg, Scan(cfg, before + [head] + body), head, body)
    ensures Scan(cfg, before + [head] + body).emitted == Scan(cfg, before).emitted
    decreases |body|
  {
    if body == [] {
      ScanOnePast(cfg, before, head);
      HeadOpens(cfg, Scan(cfg, before), head);
      assert before + [head] + body == before + [head];
    } else {
      var shorter, line := body[..|body| - 1], body[|body| - 1];
      ScanBody(cfg, before, head, shorter);
      ScanOnePast(cfg, before + [head] + shorter, line);
      BodyLineStaysInside(cfg, Scan(cfg, before + [head] + shorter), head, shorter, line);
      assert before + [head] + body == (before + [head] + shorter) + [line];
      assert shorter + [line] == body;
    }
  }

  lemma EmitOnePast(cfg: Config, items: seq<Item>, it: Item)
    requires AllWellFormed(cfg, items) && WellFormed(cfg, it)
    ensures AllWellFormed(cfg, items + [it])
    ensures Emit(cfg, items + [it]) == Emit(cfg, items) + DefinitionsOf(cfg, it)
    ensures Flatten(items + [it]) == Flatten(items) + LinesOf(it)
  {}

  lemma OtherIsPassed(cfg: Config, before: seq<Line>, line: Line)
    requires Idle(Scan(cfg, before)) && WellFormed(cfg, Other(line))
    ensures Idle(Scan(cfg, before + [line])) && Scan(cfg, before + [line]).emitted == Scan(cfg, before).emitted
  {}

  lemma BlockIsEmitted(cfg: Config, before: seq<Line>, head: Line, body: seq<Line>, close: Line)
    requires Idle(Scan(cfg, before)) && WellFormed(cfg, Block(head, body, close))
    ensures var sc := Scan(cfg, before + [head] + body + [close]);
            Idle(sc) && sc.emitted == Scan(cfg, before).emitted + DefinitionsOf(cfg, Block(head, body, close))
  {
    ScanBody(cfg, before, head, body);
    ScanOnePast(cfg, before + [head] + body, close);
  }

  lemma ItemIsAccepted(cfg: Config, before: seq<Line>, it: Item)
    requires Idle(Scan(cfg, before)) && WellFormed(cfg, it)
    ensures var sc := Scan(cfg, before + LinesOf(it));
            Idle(sc) && sc.emitted == Scan(cfg, before).emitted + DefinitionsOf(cfg, it)
  {
    match it
    case Other(line) => OtherIsPassed(cfg, before, line);
    case Block(head, body, close) =>
      BlockIsEmitted(cfg, before, head, body, close);
      assert before + LinesOf(it) == before + [head] + body + [close];
  }

  /** A well-formed sequence of items is accepted and emits its blocks. */
  lemma {:induction false} ItemsAreAccepted(cfg: Config, items: seq<Item>)
    requires AllWellFormed(cfg, items)
    ensures Idle(Scan(cfg, Flatten(items))) && Scan(cfg, Flatten(items)).emitted == Emit(cfg, items)
    decreases |items|
  {
    if items != [] {
      var shorter, it := items[..|items| - 1], items[|items| - 1];
      ItemsAreAccepted(cfg, shorter);
      ItemIsAccepted(cfg, Flatten(shorter), it);
    }
  }

  // ---------------------------------------------------------------- every input, explained

  /**
   What a scan has seen so far: finished items, then possibly a function still open, or one that
   closed without a name or a type, and everything after it.
   */
  datatype Progress =
    | Between(items: seq<Item>)
    | Open(items: seq<Item>, head: Line, body: seq<Line>)
    | Stuck(items: seq<Item>, head: Line, body: seq<Line>, rest: seq<Line>)

  ghost predicate Explains(cfg: Config, p: Progress, lines: seq<Line>) {
    var sc := Scan(cfg, lines);
    && AllWellFormed(cfg, p.items)
    && sc.emitted == Emit(cfg, p.items)
    && match p
       case Between(items) => lines == Flatten(items) && Idle(sc)
       case Open(items, head, body) => lines == Flatten(items) + [head] + body && Inside(cfg, sc, head, body)
       case Stuck(items, head, body, rest) =>
         && lines == Flatten(items) + [head] + body + rest && rest != [] && rest[0].closes
         && sc.state.EndOfFunction? && head.start.Some?
         && (forall k :: 0 <= k < |body| ==> !body[k].closes)
         && (Empty(head.start.value.name) || Empty(BodyType(cfg, head.start.value.name, body)))
         && (Empty(sc.functionName) || Empty(sc.returnType))
  }

  ghost function Advance(cfg: Config, p: Progress, line: Line): Progress {
    match p
    case Between(items) =>
      if line.start.Some? && line.start.value.name !in cfg.blacklist then Open(items, line, [])
      else Between(items + [Other(line)])
    case Open(items, head, body) =>
      if !line.closes then Open(items, head, body + [line])
      else if head.start.Some? && WellFormed(cfg, Block(head, body, line)) then
        Between(items + [Block(head, body, line)])
      else Stuck(items, head, body, [line])
    case Stuck(items, head, body, rest) => Stuck(items, head, body, rest + [line])
  }

  lemma AdvanceBetween(cfg: Config, p: Progress, lines: seq<Line>, line: Line)
    requires p.Between? && Explains(cfg, p, lines)
    ensures Explains(cfg, Advance(cfg, p, line), lines + [line])
  {
    ScanOnePast(cfg, lines, line);
    if line.start.Some? && line.start.value.name !in cfg.blacklist {
      assert lines + [line] == Flatten(p.items) + [line] + [];
    } else {
      EmitOnePast(cfg, p.items, Other(line));
    }
  }

  lemma AdvanceBody(cfg: Config, p: Progress, lines: seq<Line>, line: Line)
    requires p.Open? && !line.closes && Explains(cfg, p, lines)
    ensures Explains(cfg, Advance(cfg, p, line), lines + [line])
  {
    ScanOnePast(cfg, lines, line);
    BodyLineStaysInside(cfg, Scan(cfg, lines), p.head, p.body, line);
    assert lines + [line] == Flatten(p.items) + [p.head] + (p.body + [line]);
  }

  lemma CloseStep(cfg: Config, sc: Scanner, head: Line, body: seq<Line>, line: Line)
    requires Inside(cfg, sc, head, body) && line.closes
    ensures var sc' := Step(cfg, sc, line);
            var it := Block(head, body, line);
            if WellFormed(cfg, it) then
              Idle(sc') && sc'.emitted == sc.emitted + DefinitionsOf(cfg, it)
            else
              && sc'.state.EndOfFunction? && sc'.emitted == sc.emitted
              && (Empty(sc'.functionName) || Empty(sc'.returnType))
              && (Empty(head.start.value.name) || Empty(BodyType(cfg, head.start.value.name, body)))
  {}

  lemma Regroup(before: seq<Line>, it: Item, lines: seq<Line>)
    requires it.Block? && lines == before + [it.head] + it.body
    ensures lines + [it.close] == before + LinesOf(it)
  {}

  lemma AdvanceWhole(cfg: Config, p: Progress, lines: seq<Line>, line: Line)
    requires p.Open? && line.closes && Explains(cfg, p, lines)
    requires WellFormed(cfg, Block(p.head, p.body, line))
    ensures Explains(cfg, Between(p.items + [Block(p.head, p.body, line)]), lines + [line])
  {
    var it := Block(p.head, p.body, line);
    var items, longer := p.items + [it], lines + [line];
    CloseStep(cfg, Scan(cfg, lines), p.head, p.body, line);
    EmitOnePast(cfg, p.items, it);
    ScanOnePast(cfg, lines, line);
    Regroup(Flatten(p.items), it, lines);
    ItemsAreAccepted(cfg, items);
    assert longer == Flatten(items);
  }

  lemma AdvanceUntyped(cfg: Config, p: Progress, lines: seq<Line>, line: Line)
    requires p.Open? && line.closes && Explains(cfg, p, lines)
    requires !WellFormed(cfg, Block(p.head, p.body, line))
    ensures Explains(cfg, Stuck(p.items, p.head, p.body, [line]), lines + [line])
  {
    CloseStep(cfg, Scan(cfg, lines), p.head, p.body, line);
    ScanOnePast(cfg, lines, line);
  }

  lemma AdvanceClose(cfg: Config, p: Progress, lines: seq<Line>, line: Line)
    requires p.Open? && line.closes && Explains(cfg, p, lines)
    ensures Explains(cfg, Advance(cfg, p, line), lines + [line])
  {
    if WellFormed(cfg, Block(p.head, p.body, line)) {
      AdvanceWhole(cfg, p, lines, line);
    } else {
      AdvanceUntyped(cfg, p, lines, line);
    }
  }

  lemma AdvanceStuck(cfg: Config, p: Progress, lines: seq<Line>, line: Line)
    requires p.Stuck? && Explains(cfg, p, lines)
    ensures Explains(cfg, Advance(cfg, p, line), lines + [line])
  {
    ScanOnePast(cfg, lines, line);
    assert lines + [line] == Flatten(p.items) + [p.head] + p.body + (p.rest + [line]);
  }

  lemma {:induction false} EveryScanIsExplained(cfg: Config, lines: seq<Line>) returns (p: Progress)
    ensures Explains(cfg, p, lines)
    decreases |lines|
  {
    if lines == [] {
      return Between([]);
    }
    var before, line := lines[..|lines| - 1], lines[|lines| - 1];
    var q := EveryScanIsExplained(cfg, before);
    assert lines == before + [line];
    p := Advance(cfg, q, line);
    match q
    case Between(_) => AdvanceBetween(cfg, q, before, line);
    case Open(_, _, _) =>
      if line.closes { AdvanceClose(cfg, q, before, line); } else { AdvanceBody(cfg, q, before, line); }
    case Stuck(_, _, _, _) => AdvanceStuck(cfg, q, before, line);
  }

  // ---------------------------------------------------------------- main results

  /**
   The run avoids the fatal exit exactly when the lines are some sequence of other lines and
   whole functions with a return type.
   */
  lemma ScannerExactness(cfg: Config, lines: seq<Line>)
    ensures Scan(cfg, lines).state.SearchForFunction? <==>
            exists items :: AllWellFormed(cfg, items) && Flatten(items) == lines
  {
    var p := EveryScanIsExplained(cfg, lines);
    if Scan(cfg, lines).state.SearchForFunction? {
      assert AllWellFormed(cfg, p.items) && Flatten(p.items) == lines;
    }
    if items :| AllWellFormed(cfg, items) && Flatten(items) == lines {
      ItemsAreAccepted(cfg, items);
    }
  }

  /** The emitted definitions are exactly those of the functions, in order, however the lines are taken apart. */
  lemma ScannerOutput(cfg: Config, lines: seq<Line>, items: seq<Item>)
    requires AllWellFormed(cfg, items) && Flatten(items) == lines
    ensures Scan(cfg, lines).emitted == Emit(cfg, items)
  {
    ItemsAreAccepted(cfg, items);
  }

  /** The definition a function leaves behind: its name and parameters from its head, its type from its body. */
  lemma FunctionIsEmitted(cfg: Config, lines: seq<Line>, head: Line, body: seq<Line>, close: Line)
    requires Idle(Scan(cfg, lines)) && WellFormed(cfg, Block(head, body, close))
    ensures var before, after := Scan(cfg, lines).emitted, Scan(cfg, lines + [head] + body + [close]).emitted;
            && |after| == |before| + 1 && before <= after
            && var d := after[|before|];
               && d.name == head.start.value.name && d.parameters == head.start.value.parameters
               && d.returnType == BodyType(cfg, head.start.value.name, body)
  {
    BlockIsEmitted(cfg, lines, head, body, close);
  }

  /** So a function whose last matching line asks for a list of T returns T_map, one that asks for a vector T_list. */
  lemma EmittedType(cfg: Config, lines: seq<Line>, head: Line, body: seq<Line>, close: Line, k: nat)
    requires Idle(Scan(cfg, lines)) && WellFormed(cfg, Block(head, body, close)) && head.start.value.name !in cfg.forced
    requires k < |body|
    requires body[k].rest.Some? || body[k].restList.Some? || body[k].restVector.Some? || body[k].confirmation.Some?
    requires forall j :: k < j < |body| ==>
               body[j].rest.None? && body[j].restList.None? && body[j].restVector.None? && body[j].confirmation.None?
    ensures var after := Scan(cfg, lines + [head] + body + [close]).emitted;
            && after != []
            && var t := after[|after| - 1].returnType;
               && (body[k].rest.Some? ==> t == body[k].rest.value)
               && (body[k].rest.None? && body[k].restList.Some? ==> t == body[k].restList.value + "_map")
               && (body[k].rest.None? && body[k].restList.None? && body[k].restVector.Some? ==>
                     t == body[k].restVector.value + "_list")
               && (body[k].rest.None? && body[k].restList.None? && body[k].restVector.None? ==>
                  t == body[k].confirmation.value)
  {
    FunctionIsEmitted(cfg, lines, head, body, close);
    LastMatchDecides(cfg, head.start.value.name, body, k);
  }

  /** Once a function has closed without a usable name or type, no later line changes anything. */
  lemma {:induction false} AbsorbingFailure(cfg: Config, lines: seq<Line>, more: seq<Line>)
    requires Scan(cfg, lines).state.EndOfFunction?
    ensures Scan(cfg, lines + more) == Scan(cfg, lines)
    decreases |more|
  {
    if more == [] {
      assert lines + more == lines;
    } else {
      var shorter := more[..|more| - 1];
      AbsorbingFailure(cfg, lines, shorter);
      assert lines + more == (lines + shorter) + [more[|more| - 1]];
      ScanOnePast(cfg, lines + shorter, more[|more| - 1]);
      var p := EveryScanIsExplained(cfg, lines);
    }
  }

  /** What a prefix emits is a prefix of what the whole emits. */
  lemma {:induction false} OutputOnlyGrows(cfg: Config, lines: seq<Line>, more: seq<Line>)
    ensures Scan(cfg, lines).emitted <= Scan(cfg, lines + more).emitted
    decreases |more|
  {
    if more == [] {
      assert lines + more == lines;
    } else {
      var shorter := more[..|more| - 1];
      OutputOnlyGrows(cfg, lines, shorter);
      assert lines + more == (lines + shorter) + [more[|more| - 1]];
      ScanOnePast(cfg, lines + shorter, more[|more| - 1]);
    }
  }

  /**
   The loop over the source lines. It yields definitions unless the script dies because the
   machine stopped in the middle of a function.
   */
  method ScanLines(cfg: Config, lines: seq<Line>) returns (definitions: Option<seq<Definition>>)
    ensures definitions.Some? <==> exists items :: AllWellFormed(cfg, items) && Flatten(items) == lines
    ensures forall items :: AllWellFormed(cfg, items) && Flatten(items) == lines ==>
            definitions == Some(Emit(cfg, items))
  {
    var state := SearchForFunction;
    var currentFunction, parameters, returnType := "", "", "";
    var content := [];
    for l := 0 to |lines|
      invariant Scan(cfg, lines[..l]) == Scanner(state, currentFunction, parameters, returnType, content)
    {
      assert lines[..l + 1] == lines[..l] + [lines[l]];
      ScanOnePast(cfg, lines[..l], lines[l]);
      var cpp := lines[l];
      if state == SearchForFunction && cpp.start.Some? {
        currentFunction := cpp.start.value.name;
        parameters := cpp.start.value.parameters;
        if currentFunction !in cfg.blacklist {
          state := InFunction;
        }
      } else if state == InFunction {
        if cpp.closes {
          state := EndOfFunction;
        } else if cpp.rest.Some? {
          returnType := cpp.rest.value;
        } else if cpp.restList.Some? {
          returnType := cpp.restList.value + "_map";
        } else if cpp.restVector.Some? {
          returnType := cpp.restVector.value + "_list";
        } else if cpp.confirmation.Some? {
          returnType := cpp.confirmation.value;
        } else if currentFunction in cfg.forced && !Empty(cfg.forced[currentFunction]) {
          returnType := cfg.forced[currentFunction];
        }
      }
      if state == EndOfFunction && !Empty(currentFunction) && !Empty(returnType) {
        if currentFunction !in cfg.blacklist {
          content := content + [Definition(currentFunction, parameters, returnType)];
        }
        currentFunction, parameters, returnType := "", "", "";
        state := SearchForFunction;
      }
    }
    assert lines[..|lines|] == lines;
    ScannerExactness(cfg, lines);
    forall items | AllWellFormed(cfg, items) && Flatten(items) == lines ensures content == Emit(cfg, items) {
      ScannerOutput(cfg, lines, items);
    }
    if state != SearchForFunction {
      return None;
    }
    return Some(content);
  }
}
