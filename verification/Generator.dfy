/**
 The generator's main loop: the scanner's functions, each with its comment and its parameters.
 The header's parameter list, which has the default values, is preferred to the scanned one.

 The script scans and emits in one pass; the scan never reads the header, so here it goes first.
 `names` stands for the splitting of a parameter list into the names of its parameters.
 */
module Generator {
  import opened Prelude
  import S = StructScanner
  import H = HeaderComments
  import HeaderLookups
  import HeaderSyntax

  /** What is written for one function; `noDefaults` is the parameter list as scanned. */
  datatype Output<T> = Output(name: string, returnType: string, noDefaults: string, parameters: string,
      block: Option<seq<T>>)

  function RequestOf(d: S.Definition, names: string -> seq<string>): H.Request {
    H.Request(d.name, d.returnType, names(d.parameters))
  }

  function Requests(ds: seq<S.Definition>, names: string -> seq<string>): seq<H.Request> {
    seq(|ds|, k requires 0 <= k < |ds| => RequestOf(ds[k], names))
  }

  /** The full list unless the header has none, or one that PHP calls empty. */
  function Chosen(full: Option<string>, scanned: string): string {
    if full.Some? && !S.Empty(full.value) then full.value else scanned
  }

  /**
   What is written for one function: the comment from header `h`; the parameters from `h'`, which
   taking the comment left behind, where line `at` yields the full list `full`.
   */
  ghost predicate OutputFits<T(!new)>(x: H.Syntax<T>, h: seq<T>, h': seq<T>, d: S.Definition, r: H.Request,
                                      inserts: seq<T>, o: Output<T>, full: Option<string>, at: nat)
  {
    && o.name == d.name && o.returnType == d.returnType && o.noDefaults == d.parameters
    && H.TakesBlock(x, h, r, inserts, o.block)
    && H.Yields(x, h', r, full, at)
    && (full.Some? && full.value != "" && full.value != "0" ==> o.parameters == full.value)
    && (full.None? || full.value == "" || full.value == "0" ==> o.parameters == d.parameters)
  }

  /** `ds` are the functions of the source lines, in order. */
  ghost predicate Accepts(cfg: S.Config, lines: seq<S.Line>, ds: seq<S.Definition>) {
    exists items :: S.AllWellFormed(cfg, items) && S.Flatten(items) == lines && S.Emit(cfg, items) == ds
  }

  lemma AcceptedOnce(cfg: S.Config, lines: seq<S.Line>, ds: seq<S.Definition>, ds': seq<S.Definition>)
    requires Accepts(cfg, lines, ds) && Accepts(cfg, lines, ds')
    ensures ds == ds'
  {
    var items :| S.AllWellFormed(cfg, items) && S.Flatten(items) == lines && S.Emit(cfg, items) == ds;
    var items' :| S.AllWellFormed(cfg, items') && S.Flatten(items') == lines && S.Emit(cfg, items') == ds';
    S.ScannerOutput(cfg, lines, items);
    S.ScannerOutput(cfg, lines, items');
  }

  /**
   Nothing is written when the source is not accepted. Otherwise one definition is written for each
   function of the source, in order, with the comment of the header as the earlier functions left
   it, and with parameters from the header as its own comment left it.
   */
  method Generate<T(!new)>(cfg: S.Config, lines: seq<S.Line>, x: H.Syntax<T>, header: array<T>,
                           names: string -> seq<string>, inserts: seq<T>)
      returns (out: Option<seq<Output<T>>>, ghost ds: seq<S.Definition>, ghost fulls: seq<Option<string>>,
               ghost places: seq<nat>, ghost hs: seq<seq<T>>)
    modifies header
    ensures out.Some? <==> exists items :: S.AllWellFormed(cfg, items) && S.Flatten(items) == lines
    ensures out.Some? ==>
              && Accepts(cfg, lines, ds) && |out.value| == |fulls| == |places| == |ds|
              && H.HeaderRun(x, hs, Requests(ds, names)) && hs[0] == old(header[..])
              && (forall k :: 0 <= k < |ds| ==>
                    Requests(ds, names)[k] == H.Request(ds[k].name, ds[k].returnType, names(ds[k].parameters)))
              && forall k :: 0 <= k < |ds| ==>
                   OutputFits(x, hs[k], hs[k + 1], ds[k],
                              H.Request(ds[k].name, ds[k].returnType, names(ds[k].parameters)), inserts,
                              out.value[k], fulls[k], places[k])
  {
    ds, fulls, places, hs := [], [], [], [];
    var scanned := S.ScanLines(cfg, lines);
    if scanned.None? {
      return None, ds, fulls, places, hs;
    }
    var definitions := scanned.value;
    ds := definitions;
    var rs := Requests(definitions, names);
    var entries;
    entries, places, hs := H.EmitAll(x, header, rs, inserts);
    var content := [];
    for k := 0 to |definitions|
      invariant |content| == |fulls| == k
      invariant forall j :: 0 <= j < k ==>
                  OutputFits(x, hs[j], hs[j + 1], ds[j], RequestOf(ds[j], names), inserts, content[j], fulls[j],
                      places[j])
    {
      var d, e := definitions[k], entries[k];
      assert rs[k] == RequestOf(d, names);
      assert H.EntryFits(x, hs[k], hs[k + 1], rs[k], inserts, e, places[k]);
      content := content + [Output(d.name, d.returnType, d.parameters, Chosen(e.parameters, d.parameters), e.block)];
      fulls := fulls + [e.parameters];
    }
    out := Some(content);
  }

  /** The full list is that of the header as read, if its lines lie in a set that rewriting treats well. */
  lemma WrittenAsRead<T(!new)>(
      x: H.Syntax<T>, lines: iset<T>, hs: seq<seq<T>>, ds: seq<S.Definition>, names: string -> seq<string>,
      k: nat, full: Option<string>, at: nat)
    requires H.HeaderRun(x, hs, Requests(ds, names)) && k < |ds|
    requires H.Yields(x, hs[k + 1], RequestOf(ds[k], names), full, at)
    requires var rs := Requests(ds, names); H.Recognisable(x, lines, rs) && H.SameText(x, lines, rs)
    requires H.Within(hs[0], lines)
    ensures H.Yields(x, hs[0], RequestOf(ds[k], names), full, at)
  {
    H.EmittedAsRead(x, lines, hs, Requests(ds, names), k, full, at);
  }

  /** With the script's own patterns: no comment taken on the way matters if the header's lines are harmless. */
  lemma HarmlessHeader(hs: seq<seq<string>>, ds: seq<S.Definition>, names: string -> seq<string>, k: nat,
      full: Option<string>, at: nat)
    requires H.HeaderRun(HeaderSyntax.PHP, hs, Requests(ds, names)) && k < |ds|
    requires forall i :: 0 <= i < |hs[0]| ==> HeaderSyntax.Harmless(hs[0][i])
    requires H.Yields(HeaderSyntax.PHP, hs[k + 1], RequestOf(ds[k], names), full, at)
    ensures H.Yields(HeaderSyntax.PHP, hs[0], RequestOf(ds[k], names), full, at)
  {
    HeaderSyntax.HarmlessLinesAreSteady(Requests(ds, names));
    WrittenAsRead(HeaderSyntax.PHP, HeaderSyntax.HarmlessLines(), hs, ds, names, k, full, at);
  }

  ghost predicate PlainNames(ds: seq<S.Definition>) {
    forall d :: d in ds ==> HeaderLookups.Plain(d.name) && HeaderLookups.Plain(d.returnType)
  }

  lemma PlainNamesInRequests(ds: seq<S.Definition>, names: string -> seq<string>)
    requires PlainNames(ds)
    ensures HeaderLookups.PlainRequests(Requests(ds, names))
  {
    var rs := Requests(ds, names);
    forall r | r in rs ensures HeaderLookups.Plain(r.functionName) && HeaderLookups.Plain(r.returnType) {
      var k :| 0 <= k < |rs| && rs[k] == r;
      assert ds[k] in ds;
    }
  }

  /**
   With the script's own patterns, on any header: the full list of a function that line `i` of the
   header declares is the one the header has there exactly when that line is the very first, or
   survives the rewriting with its text. A function that no line declares gets none.
   */
  lemma ScriptWritesAsRead(hs: seq<seq<string>>, ds: seq<S.Definition>, names: string -> seq<string>, k: nat, i: nat,
                           full: Option<string>, at: nat)
    requires H.HeaderRun(HeaderSyntax.PHP, hs, Requests(ds, names)) && k < |ds| && PlainNames(ds)
    requires forall j :: 0 <= j < |hs[0]| ==> '\n' !in hs[0][j]
    requires H.Yields(HeaderSyntax.PHP, hs[k + 1], RequestOf(ds[k], names), full, at)
    ensures var r := RequestOf(ds[k], names);
            H.First(HeaderSyntax.PHP, hs[0], r, i) ==>
              (H.Yields(HeaderSyntax.PHP, hs[0], r, full, at) <==>
               i == 0 || (HeaderLookups.Survives(hs[0][i], r)
                          && HeaderLookups.SurvivingText(hs[0][i], r) == HeaderSyntax.Parameters(hs[0][i], r)))
    ensures var r := RequestOf(ds[k], names); H.Undeclared(HeaderSyntax.PHP, hs[0], r) ==> full.None?
  {
    var rs := Requests(ds, names);
    var r := RequestOf(ds[k], names);
    assert rs[k] == r && r in rs;
    PlainNamesInRequests(ds, names);
    if H.First(HeaderSyntax.PHP, hs[0], r, i) {
      HeaderLookups.ParametersSurvive(hs, rs, k, i, full, at);
    }
    if H.Undeclared(HeaderSyntax.PHP, hs[0], r) {
      HeaderLookups.UndeclaredStays(hs, rs, k + 1, r);
    }
  }

  /**
   If no declaration of the header carries a tag, whatever the names: exactly when its line carries
   no success remark.
   */
  lemma UntaggedHeader(hs: seq<seq<string>>, ds: seq<S.Definition>, names: string -> seq<string>, k: nat, i: nat,
                       full: Option<string>, at: nat)
    requires H.HeaderRun(HeaderSyntax.PHP, hs, Requests(ds, names)) && k < |ds|
    requires forall j :: 0 <= j < |hs[0]| ==> HeaderLookups.TagFree(hs[0][j])
    requires H.First(HeaderSyntax.PHP, hs[0], RequestOf(ds[k], names), i)
    requires H.Yields(HeaderSyntax.PHP, hs[k + 1], RequestOf(ds[k], names), full, at)
    ensures H.Yields(HeaderSyntax.PHP, hs[0], RequestOf(ds[k], names), full, at) <==>
            i == 0 || !HeaderSyntax.Contains(Lower(hs[0][i]), HeaderSyntax.SUCCESS)
  {
    assert Requests(ds, names)[k] == RequestOf(ds[k], names);
    HeaderLookups.ParametersUnremarked(hs, Requests(ds, names), k, i, full, at);
  }
}
