/**
 How the generator takes the comment and the full parameter list of a function from the header
 it holds as an array of lines. Taking a comment rewrites lines of that same array in place, and
 the parameter list is looked up in it afterwards.

 A line is any value; which lines declare a function, open a comment, and what the rewriting
 makes of a line are given by a Syntax; HeaderSyntax is the one the script has.
 */
module HeaderComments {
  import opened Prelude

  /** A function whose header entry is wanted. */
  datatype Request = Request(functionName: string, returnType: string, names: seq<string>)

  /**
   `declares`: the line declares the function with these parameter names and a callback.
   `rewrite`: leading tabs, the see and callback tags, and the success remark are replaced.
   `opens`: the line opens a documentation comment. `parameters`: the captured parameter text.
   */
  datatype Syntax<!T> = Syntax(
    declares: (T, Request) -> bool,
    rewrite: (T, Request) -> T,
    opens: T -> bool,
    parameters: (T, Request) -> string)

  /** `i` is the first line that declares the function. */
  ghost predicate First<T>(x: Syntax<T>, h: seq<T>, r: Request, i: nat) {
    i < |h| && x.declares(h[i], r) && forall k :: 0 <= k < i ==> !x.declares(h[k], r)
  }

  ghost predicate Undeclared<T>(x: Syntax<T>, h: seq<T>, r: Request) {
    forall k :: 0 <= k < |h| ==> !x.declares(h[k], r)
  }

  /** Lines lo..hi rewritten, both included; the rest as they were. */
  ghost function Rewritten<T>(x: Syntax<T>, h: seq<T>, r: Request, lo: nat, hi: int): (h': seq<T>)
    ensures |h'| == |h|
    ensures forall k :: 0 <= k < |h| ==> h'[k] == if lo <= k <= hi then x.rewrite(h[k], r) else h[k]
  {
    seq(|h|, k requires 0 <= k < |h| => if lo <= k <= hi then x.rewrite(h[k], r) else h[k])
  }

  /**
   `n` is the nearest line at or above `i` that, once rewritten, opens a comment; 0 if there is
   none. Line 0 itself is never looked at.
   */
  ghost predicate Nearest<T>(x: Syntax<T>, h: seq<T>, r: Request, i: nat, n: nat)
    requires i < |h|
  {
    && n <= i
    && (0 < n ==> x.opens(x.rewrite(h[n], r)))
    && (forall k :: n < k <= i ==> !x.opens(x.rewrite(h[k], r)))
  }

  /** The first line the backward scan rewrites: the opener, or line 1 when it finds none. */
  function Bottom(n: nat): nat {
    if n == 0 then 1 else n
  }

  /** array_splice at the last position: the inserts go before the last line. */
  function Spliced<T>(part: seq<T>, inserts: seq<T>): seq<T> {
    if part == [] then inserts else part[..|part| - 1] + inserts + [part[|part| - 1]]
  }

  /**
   The rewritten lines from the opener to just above the declaration, with the generator's lines
   before the last one.
   */
  ghost function Block<T>(x: Syntax<T>, h: seq<T>, r: Request, n: nat, i: nat, inserts: seq<T>): seq<T>
    requires n <= i < |h|
  {
    Spliced(Rewritten(x, h, r, n, i)[n..i], inserts)
  }

  /**
   Nothing of the comment is lost or moved: its lines but the last, then the inserts, then its last
   line; of no lines, the inserts.
   */
  lemma BlockIsTheComment<T>(x: Syntax<T>, h: seq<T>, r: Request, n: nat, i: nat, inserts: seq<T>, k: nat)
    requires n <= i < |h| && k < i - n + |inserts|
    ensures |Block(x, h, r, n, i, inserts)| == i - n + |inserts|
    ensures n == i ==> Block(x, h, r, n, i, inserts) == inserts
    ensures n < i ==>
            Block(x, h, r, n, i, inserts)[k] ==
            if k < i - n - 1 then x.rewrite(h[n + k], r)
            else if k < i - n - 1 + |inserts| then inserts[k - (i - n - 1)]
            else x.rewrite(h[i - 1], r)
  {}

  /** getComments. `found` is where the function is declared; no block means the empty string. */
  method GetComments<T>(x: Syntax<T>, header: array<T>, r: Request, inserts: seq<T>)
      returns (found: Option<nat>, ghost opener: nat, block: Option<seq<T>>)
    modifies header
    ensures found.None? ==> Undeclared(x, old(header[..]), r) && header[..] == old(header[..]) && block.None?
    ensures found.Some? ==>
              && First(x, old(header[..]), r, found.value)
              && Nearest(x, old(header[..]), r, found.value, opener)
              && header[..] == Rewritten(x, old(header[..]), r, Bottom(opener), found.value)
              && (block.Some? <==> opener != 0)
              && (block.Some? ==> block.value == Block(x, old(header[..]), r, opener, found.value, inserts))
  {
    opener := 0;
    for i := 0 to header.Length
      invariant header[..] == old(header[..])
      invariant forall k :: 0 <= k < i ==> !x.declares(header[k], r)
    {
      if x.declares(header[i], r) {
        opener, block := ScanBack(x, header, i, r, inserts);
        return Some(i), opener, block;
      }
    }
    return None, 0, None;
  }

  /** The backward scan of getComments from the declaration at `i`. */
  method ScanBack<T>(x: Syntax<T>, header: array<T>, i: nat, r: Request, inserts: seq<T>)
      returns (ghost opener: nat, block: Option<seq<T>>)
    requires i < header.Length
    modifies header
    ensures Nearest(x, old(header[..]), r, i, opener)
    ensures header[..] == Rewritten(x, old(header[..]), r, Bottom(opener), i)
    ensures block.Some? <==> opener != 0
    ensures block.Some? ==> block.value == Block(x, old(header[..]), r, opener, i, inserts)
  {
    ghost var h := header[..];
    var lineIndex := 1;
    var n := i;
    while n != 0
      invariant 0 <= n <= i && lineIndex == i - n + 1
      invariant forall k :: 0 <= k < |h| ==> header[k] == if n < k <= i then x.rewrite(h[k], r) else h[k]
      invariant forall k :: n < k <= i ==> !x.opens(x.rewrite(h[k], r))
    {
      header[n] := x.rewrite(header[n], r);
      if x.opens(header[n]) {
        assert header[..] == Rewritten(x, h, r, n, i);
        var part := header[n..n + (lineIndex - 1)];
        assert part == Rewritten(x, h, r, n, i)[n..i];
        return n, Some(Spliced(part, inserts));
      }
      n := n - 1;
      lineIndex := lineIndex + 1;
    }
    assert header[..] == Rewritten(x, h, r, 1, i);
    return 0, None;
  }

  /** `p` is what the first line of `h` that declares the function, line `at`, captures; nothing if no line does. */
  ghost predicate Yields<T>(x: Syntax<T>, h: seq<T>, r: Request, p: Option<string>, at: nat) {
    && (p.None? <==> Undeclared(x, h, r))
    && (p.Some? ==> First(x, h, r, at) && p.value == x.parameters(h[at], r))
  }

  /** getFullParameters: the parameters of the first declaring line, or nothing. */
  method GetFullParameters<T>(x: Syntax<T>, header: array<T>, r: Request) returns (p: Option<string>, ghost at: nat)
    ensures Yields(x, header[..], r, p, at)
  {
    for i := 0 to header.Length
      invariant forall k :: 0 <= k < i ==> !x.declares(header[k], r)
    {
      if x.declares(header[i], r) {
        return Some(x.parameters(header[i], r)), i;
      }
    }
    return None, 0;
  }

  // ---------------------------------------------------------------- lookup after rewriting

  /**
   After the comment of a function is taken, the lookup of its parameters finds the same line
   exactly when the rewritten declaration is still one and no rewritten comment line became one.
   */
  lemma LookupAgreement<T>(x: Syntax<T>, h: seq<T>, r: Request, i: nat, n: nat)
    requires First(x, h, r, i) && Nearest(x, h, r, i, n)
    ensures First(x, Rewritten(x, h, r, Bottom(n), i), r, i) <==>
            (i == 0 || (x.declares(x.rewrite(h[i], r), r)
                        && forall k :: Bottom(n) <= k < i ==> !x.declares(x.rewrite(h[k], r), r)))
  {}

  /** The effect of taking one comment, as GetComments states it. */
  ghost predicate TakenOnce<T(!new)>(x: Syntax<T>, h: seq<T>, r: Request, h': seq<T>) {
    || (Undeclared(x, h, r) && h' == h)
    || (exists i: nat, n: nat :: First(x, h, r, i) && Nearest(x, h, r, i, n) && h' == Rewritten(x, h, r, Bottom(n), i))
  }

  /** The headers that taking the comments of some requests, one after the other, goes through. */
  ghost predicate HeaderRun<T(!new)>(x: Syntax<T>, hs: seq<seq<T>>, rs: seq<Request>) {
    && |hs| == |rs| + 1
    && (forall k {:trigger rs[k]} :: 0 <= k < |rs| ==> TakenOnce(x, hs[k], rs[k], hs[k + 1]))
  }

  // ---------------------------------------------------------------- the exact condition, over a whole run

  /** Taking the comment of `r` rewrites line `k`. */
  ghost predicate Scans<T>(x: Syntax<T>, h: seq<T>, r: Request, k: nat) {
    exists i: nat, n: nat :: First(x, h, r, i) && Nearest(x, h, r, i, n) && Bottom(n) <= k <= i
  }

  lemma OneScan<T>(x: Syntax<T>, h: seq<T>, r: Request, i: nat, n: nat, k: nat)
    requires First(x, h, r, i) && Nearest(x, h, r, i, n)
    ensures Scans(x, h, r, k) <==> Bottom(n) <= k <= i
  {}

  lemma TakenLine<T(!new)>(x: Syntax<T>, h: seq<T>, r: Request, h': seq<T>, k: nat)
    requires TakenOnce(x, h, r, h') && k < |h|
    ensures |h'| == |h| && h'[k] == if Scans(x, h, r, k) then x.rewrite(h[k], r) else h[k]
  {
    if !Undeclared(x, h, r) {
      var i: nat, n: nat :| First(x, h, r, i) && Nearest(x, h, r, i, n) && h' == Rewritten(x, h, r, Bottom(n), i);
      OneScan(x, h, r, i, n, k);
    }
  }

  /** The requests, among the first `m`, whose comments took line `k` along. */
  ghost function Rewriters<T(!new)>(x: Syntax<T>, hs: seq<seq<T>>, rs: seq<Request>, m: nat, k: nat): seq<Request>
    requires m <= |rs| && |hs| == |rs| + 1
  {
    if m == 0 then []
    else Rewriters(x, hs, rs, m - 1, k) + (if Scans(x, hs[m - 1], rs[m - 1], k) then [rs[m - 1]] else [])
  }

  ghost function RewriteAll<T>(x: Syntax<T>, line: T, qs: seq<Request>): T {
    if qs == [] then line else x.rewrite(RewriteAll(x, line, qs[..|qs| - 1]), qs[|qs| - 1])
  }

  lemma RewriteOneMore<T>(x: Syntax<T>, line: T, qs: seq<Request>, q: Request)
    ensures RewriteAll(x, line, qs + [q]) == x.rewrite(RewriteAll(x, line, qs), q)
  {}

  /** Each line of the header is at any time the original line rewritten for the requests whose scans met it. */
  lemma {:induction false} LineHistory<T(!new)>(x: Syntax<T>, hs: seq<seq<T>>, rs: seq<Request>, m: nat, k: nat)
    requires HeaderRun(x, hs, rs) && m <= |rs| && k < |hs[0]|
    ensures |hs[m]| == |hs[0]| && hs[m][k] == RewriteAll(x, hs[0][k], Rewriters(x, hs, rs, m, k))
  {
    if m != 0 {
      LineHistory(x, hs, rs, m - 1, k);
      assert TakenOnce(x, hs[m - 1], rs[m - 1], hs[m - 1 + 1]);
      TakenLine(x, hs[m - 1], rs[m - 1], hs[m], k);
      var qs := Rewriters(x, hs, rs, m - 1, k);
      RewriteOneMore(x, hs[0][k], qs, rs[m - 1]);
      assert qs + [] == qs;
    }
  }

  lemma {:induction false} RunKeepsLength<T(!new)>(x: Syntax<T>, hs: seq<seq<T>>, rs: seq<Request>, m: nat)
    requires HeaderRun(x, hs, rs) && m <= |rs|
    ensures |hs[m]| == |hs[0]|
  {
    if m != 0 {
      RunKeepsLength(x, hs, rs, m - 1);
      assert TakenOnce(x, hs[m - 1], rs[m - 1], hs[m - 1 + 1]);
    }
  }

  /**
   After any number of comments have been taken, a function is looked up on the line that declared
   it in the header as read, exactly when among the lines up to there that were rewritten, that one
   still declares it and no other came to.
   */
  lemma RunAgreement<T(!new)>(x: Syntax<T>, hs: seq<seq<T>>, rs: seq<Request>, m: nat, q: Request, i: nat)
    requires HeaderRun(x, hs, rs) && m <= |rs| && First(x, hs[0], q, i)
    ensures First(x, hs[m], q, i) <==>
            forall k: nat :: k <= i && Rewriters(x, hs, rs, m, k) != [] ==>
              (x.declares(RewriteAll(x, hs[0][k], Rewriters(x, hs, rs, m, k)), q) <==> k == i)
  {
    forall k: nat | k <= i
      ensures |hs[m]| == |hs[0]| && hs[m][k] == RewriteAll(x, hs[0][k], Rewriters(x, hs, rs, m, k))
      ensures Rewriters(x, hs, rs, m, k) == [] ==> hs[m][k] == hs[0][k]
    {
      LineHistory(x, hs, rs, m, k);
    }
    assert forall k: nat :: k <= i ==> (x.declares(hs[0][k], q) <==> k == i);
    assert First(x, hs[m], q, i) <==> forall k: nat :: k <= i ==> (x.declares(hs[m][k], q) <==> k == i);
  }

  /** A function the header as read does not declare stays unfound exactly when no rewritten line came to declare it. */
  lemma RunUndeclared<T(!new)>(x: Syntax<T>, hs: seq<seq<T>>, rs: seq<Request>, m: nat, q: Request)
    requires HeaderRun(x, hs, rs) && m <= |rs| && Undeclared(x, hs[0], q)
    ensures Undeclared(x, hs[m], q) <==>
            forall k: nat :: k < |hs[0]| && Rewriters(x, hs, rs, m, k) != [] ==>
              !x.declares(RewriteAll(x, hs[0][k], Rewriters(x, hs, rs, m, k)), q)
  {
    RunKeepsLength(x, hs, rs, m);
    forall k: nat | k < |hs[0]|
      ensures hs[m][k] == RewriteAll(x, hs[0][k], Rewriters(x, hs, rs, m, k))
      ensures Rewriters(x, hs, rs, m, k) == [] ==> hs[m][k] == hs[0][k]
    {
      LineHistory(x, hs, rs, m, k);
    }
    assert Undeclared(x, hs[m], q) <==> forall k: nat :: k < |hs[0]| ==> !x.declares(hs[m][k], q);
  }

  // ---------------------------------------------------------------- a condition known before the run

  /**
   `keeps` tells from a line as read whether it will declare a function once it has been rewritten,
   however often and for whichever of these functions; only a declaration can.
   */
  ghost predicate Foretells<T(!new)>(x: Syntax<T>, keeps: (T, Request) -> bool, lines: iset<T>, rs: seq<Request>) {
    forall l, qs, r :: l in lines && qs != [] && Among(qs, rs) && r in rs ==>
      (x.declares(RewriteAll(x, l, qs), r) <==> keeps(l, r)) && (keeps(l, r) ==> x.declares(l, r))
  }

  /** `text` tells the parameters such a line will then yield. */
  ghost predicate ForetellsText<T(!new)>(x: Syntax<T>, text: (T, Request) -> string, lines: iset<T>, rs: seq<Request>) {
    forall l, qs, r :: l in lines && qs != [] && Among(qs, rs) && r in rs && x.declares(RewriteAll(x, l, qs), r) ==>
      x.parameters(RewriteAll(x, l, qs), r) == text(l, r)
  }

  ghost predicate Among(qs: seq<Request>, rs: seq<Request>) {
    forall q :: q in qs ==> q in rs
  }

  ghost predicate Within<T(!new)>(h: seq<T>, lines: iset<T>) {
    forall k :: 0 <= k < |h| ==> h[k] in lines
  }

  lemma {:induction false} RewritersAmong<T(!new)>(x: Syntax<T>, hs: seq<seq<T>>, rs: seq<Request>, m: nat, k: nat)
    requires m <= |rs| && |hs| == |rs| + 1
    ensures Among(Rewriters(x, hs, rs, m, k), rs)
  {
    if m != 0 {
      RewritersAmong(x, hs, rs, m - 1, k);
    }
  }

  lemma NearestExists<T>(x: Syntax<T>, h: seq<T>, r: Request, i: nat) returns (n: nat)
    requires i < |h|
    ensures Nearest(x, h, r, i, n)
  {
    n := i;
    while n != 0 && !x.opens(x.rewrite(h[n], r))
      invariant n <= i && forall k :: n < k <= i ==> !x.opens(x.rewrite(h[k], r))
    {
      n := n - 1;
    }
  }

  /** The first line of the header is never rewritten. */
  lemma {:induction false} LineZeroStays<T(!new)>(x: Syntax<T>, hs: seq<seq<T>>, rs: seq<Request>, m: nat)
    requires m <= |rs| && |hs| == |rs| + 1
    ensures Rewriters(x, hs, rs, m, 0) == []
  {
    if m != 0 {
      LineZeroStays(x, hs, rs, m - 1);
    }
  }

  /**
   A function stays on its line exactly as long as that line is untouched or `keeps` it; no other
   line comes before it.
   */
  lemma LookupForetold<T(!new)>(x: Syntax<T>, keeps: (T, Request) -> bool, lines: iset<T>,
                                hs: seq<seq<T>>, rs: seq<Request>, m: nat, q: Request, i: nat)
    requires HeaderRun(x, hs, rs) && m <= |rs| && q in rs && First(x, hs[0], q, i)
    requires Foretells(x, keeps, lines, rs) && Within(hs[0], lines)
    ensures First(x, hs[m], q, i) <==> Rewriters(x, hs, rs, m, i) == [] || keeps(hs[0][i], q)
  {
    RunAgreement(x, hs, rs, m, q, i);
    forall k: nat | k <= i && Rewriters(x, hs, rs, m, k) != []
      ensures (x.declares(RewriteAll(x, hs[0][k], Rewriters(x, hs, rs, m, k)), q) <==> keeps(hs[0][k], q))
      ensures k < i ==> !keeps(hs[0][k], q)
    {
      RewritersAmong(x, hs, rs, m, k);
    }
  }

  /** A function the header as read does not declare is never found. */
  lemma UndeclaredForetold<T(!new)>(x: Syntax<T>, keeps: (T, Request) -> bool, lines: iset<T>,
                                    hs: seq<seq<T>>, rs: seq<Request>, m: nat, q: Request)
    requires HeaderRun(x, hs, rs) && m <= |rs| && q in rs && Undeclared(x, hs[0], q)
    requires Foretells(x, keeps, lines, rs) && Within(hs[0], lines)
    ensures Undeclared(x, hs[m], q)
  {
    RunUndeclared(x, hs, rs, m, q);
    forall k: nat | k < |hs[0]| && Rewriters(x, hs, rs, m, k) != []
      ensures !x.declares(RewriteAll(x, hs[0][k], Rewriters(x, hs, rs, m, k)), q)
    {
      RewritersAmong(x, hs, rs, m, k);
    }
  }

  /** By the time a function's parameters are looked up its own scan, if no earlier one, has rewritten its line. */
  lemma OwnLineIsRewritten<T(!new)>(x: Syntax<T>, keeps: (T, Request) -> bool, lines: iset<T>,
                                    hs: seq<seq<T>>, rs: seq<Request>, k: nat, i: nat)
    requires HeaderRun(x, hs, rs) && k < |rs| && First(x, hs[0], rs[k], i) && i != 0
    requires Foretells(x, keeps, lines, rs) && Within(hs[0], lines)
    ensures Rewriters(x, hs, rs, k + 1, i) != []
  {
    if Rewriters(x, hs, rs, k, i) == [] {
      LookupForetold(x, keeps, lines, hs, rs, k, rs[k], i);
      var n := NearestExists(x, hs[k], rs[k], i);
      OneScan(x, hs[k], rs[k], i, n, i);
    }
  }

  /**
   After its comment is taken, a function is looked up on the line that declared it in the header
   as read exactly when that line is kept, or is the first of all.
   */
  lemma OwnLookup<T(!new)>(x: Syntax<T>, keeps: (T, Request) -> bool, lines: iset<T>,
                           hs: seq<seq<T>>, rs: seq<Request>, k: nat, i: nat)
    requires HeaderRun(x, hs, rs) && k < |rs| && First(x, hs[0], rs[k], i)
    requires Foretells(x, keeps, lines, rs) && Within(hs[0], lines)
    ensures First(x, hs[k + 1], rs[k], i) <==> i == 0 || keeps(hs[0][i], rs[k])
  {
    LookupForetold(x, keeps, lines, hs, rs, k + 1, rs[k], i);
    if i == 0 {
      LineZeroStays(x, hs, rs, k + 1);
    } else {
      OwnLineIsRewritten(x, keeps, lines, hs, rs, k, i);
    }
  }

  /** And what is captured then is what the header as read yields exactly when, moreover, the text is the same. */
  lemma OwnParameters<T(!new)>(x: Syntax<T>, keeps: (T, Request) -> bool, text: (T, Request) -> string, lines: iset<T>,
                               hs: seq<seq<T>>, rs: seq<Request>, k: nat, i: nat, p: Option<string>, at: nat)
    requires HeaderRun(x, hs, rs) && k < |rs| && First(x, hs[0], rs[k], i) && Yields(x, hs[k + 1], rs[k], p, at)
    requires Foretells(x, keeps, lines, rs) && ForetellsText(x, text, lines, rs) && Within(hs[0], lines)
    ensures Yields(x, hs[0], rs[k], p, at) <==>
            i == 0 || (keeps(hs[0][i], rs[k]) && text(hs[0][i], rs[k]) == x.parameters(hs[0][i], rs[k]))
  {
    OwnLookup(x, keeps, lines, hs, rs, k, i);
    LineHistory(x, hs, rs, k + 1, i);
    RewritersAmong(x, hs, rs, k + 1, i);
    if i == 0 {
      LineZeroStays(x, hs, rs, k + 1);
    } else {
      OwnLineIsRewritten(x, keeps, lines, hs, rs, k, i);
    }
  }

  // ---------------------------------------------------------------- a sufficient condition on the lines alone

  /**
   `lines` is closed under rewriting for these functions, and rewriting a line in it neither makes
   nor unmakes a declaration of any of them.
   */
  ghost predicate Recognisable<T(!new)>(x: Syntax<T>, lines: iset<T>, rs: seq<Request>) {
    forall l, q, r :: l in lines && q in rs && r in rs ==>
      x.rewrite(l, q) in lines && (x.declares(x.rewrite(l, q), r) <==> x.declares(l, r))
  }

  /** Rewriting leaves the parameter text of declarations in `lines` alone. */
  ghost predicate SameText<T(!new)>(x: Syntax<T>, lines: iset<T>, rs: seq<Request>) {
    forall l, q, r :: l in lines && q in rs && r in rs && x.declares(l, r) ==>
      x.parameters(x.rewrite(l, q), r) == x.parameters(l, r)
  }

  /** The same lines declare the function in both headers. */
  ghost predicate SameFor<T>(x: Syntax<T>, h: seq<T>, h': seq<T>, q: Request) {
    |h'| == |h| && forall k :: 0 <= k < |h| ==> (x.declares(h'[k], q) <==> x.declares(h[k], q))
  }

  /** And the declaring lines capture the same parameter text. */
  ghost predicate SameTextFor<T>(x: Syntax<T>, h: seq<T>, h': seq<T>, q: Request)
    requires |h'| == |h|
  {
    forall k :: 0 <= k < |h| && x.declares(h[k], q) ==> x.parameters(h'[k], q) == x.parameters(h[k], q)
  }

  lemma TakingKeepsDeclarations<T(!new)>(x: Syntax<T>, lines: iset<T>, rs: seq<Request>, h: seq<T>, r: Request,
      h': seq<T>, q: Request)
    requires Recognisable(x, lines, rs) && r in rs && q in rs && TakenOnce(x, h, r, h') && Within(h, lines)
    ensures Within(h', lines) && SameFor(x, h, h', q)
    ensures SameText(x, lines, rs) ==> SameTextFor(x, h, h', q)
  {}

  /**
   Over any sequence of emitted functions, every lookup selects the line it would have selected
   in the untouched header, and captures what it would have captured there, provided the header's
   lines lie in a set that rewriting treats well.
   */
  lemma {:induction false} LookupsNeverDrift<T(!new)>(
      x: Syntax<T>, lines: iset<T>, hs: seq<seq<T>>, rs: seq<Request>, m: nat, q: Request)
    requires HeaderRun(x, hs, rs) && m <= |rs| && q in rs
    requires Recognisable(x, lines, rs) && Within(hs[0], lines)
    ensures Within(hs[m], lines) && SameFor(x, hs[0], hs[m], q)
    ensures forall i: nat :: First(x, hs[m], q, i) <==> First(x, hs[0], q, i)
    ensures Undeclared(x, hs[m], q) <==> Undeclared(x, hs[0], q)
    ensures SameText(x, lines, rs) ==> SameTextFor(x, hs[0], hs[m], q)
  {
    if m != 0 {
      LookupsNeverDrift(x, lines, hs, rs, m - 1, q);
      assert TakenOnce(x, hs[m - 1], rs[m - 1], hs[m - 1 + 1]);
      TakingKeepsDeclarations(x, lines, rs, hs[m - 1], rs[m - 1], hs[m], q);
    }
  }

  // ---------------------------------------------------------------- the emission loop

  /** The comment taken for a request from header `h`, or nothing if no opener precedes the declaration. */
  ghost predicate TakesBlock<T(!new)>(x: Syntax<T>, h: seq<T>, r: Request, inserts: seq<T>, block: Option<seq<T>>) {
    match block
    case None => forall i: nat, n: nat :: First(x, h, r, i) && Nearest(x, h, r, i, n) ==> n == 0
    case Some(b) =>
      exists i: nat, n: nat :: First(x, h, r, i) && Nearest(x, h, r, i, n) && n != 0
          && b == Block(x, h, r, n, i, inserts)
  }

  /** What the generator finds for one function: its comment and its full parameters. */
  datatype Entry<T> = Entry(block: Option<seq<T>>, parameters: Option<string>)

  /** The entry of `r`: the comment from header `h`, the parameters from `h'`, which taking the comment left behind. */
  ghost predicate EntryFits<T(!new)>(
      x: Syntax<T>, h: seq<T>, h': seq<T>, r: Request, inserts: seq<T>, e: Entry<T>, at: nat)
  {
    TakesBlock(x, h, r, inserts, e.block) && Yields(x, h', r, e.parameters, at)
  }

  /** One function's comment, and then its parameters from the header the comment was taken from. */
  method EmitOne<T(!new)>(x: Syntax<T>, header: array<T>, r: Request, inserts: seq<T>)
      returns (e: Entry<T>, ghost at: nat)
    modifies header
    ensures TakenOnce(x, old(header[..]), r, header[..])
    ensures EntryFits(x, old(header[..]), header[..], r, inserts, e, at)
  {
    ghost var opener;
    var found, block, p;
    found, opener, block := GetComments(x, header, r, inserts);
    p, at := GetFullParameters(x, header, r);
    e := Entry(block, p);
  }

  lemma RunOnePast<T(!new)>(x: Syntax<T>, hs: seq<seq<T>>, rs: seq<Request>, m: nat, h': seq<T>)
    requires m < |rs| && HeaderRun(x, hs, rs[..m]) && TakenOnce(x, hs[m], rs[m], h')
    ensures HeaderRun(x, hs + [h'], rs[..m + 1])
  {
    var longer, part := hs + [h'], rs[..m + 1];
    forall k {:trigger part[k]} | 0 <= k < |part| ensures TakenOnce(x, longer[k], part[k], longer[k + 1]) {
      if k < m { assert rs[..m][k] == part[k]; }
    }
  }

  /**
   The emission loop. `hs` records the headers it goes through, `places` the line each parameter
   list came from.
   */
  method EmitAll<T(!new)>(x: Syntax<T>, header: array<T>, rs: seq<Request>, inserts: seq<T>)
      returns (entries: seq<Entry<T>>, ghost places: seq<nat>, ghost hs: seq<seq<T>>)
    modifies header
    ensures |entries| == |places| == |rs|
    ensures HeaderRun(x, hs, rs) && hs[0] == old(header[..]) && hs[|rs|] == header[..]
    ensures forall k :: 0 <= k < |rs| ==> EntryFits(x, hs[k], hs[k + 1], rs[k], inserts, entries[k], places[k])
  {
    entries, places, hs := [], [], [header[..]];
    for m := 0 to |rs|
      invariant |entries| == |places| == m
      invariant HeaderRun(x, hs, rs[..m]) && hs[0] == old(header[..]) && hs[m] == header[..]
      invariant forall k :: 0 <= k < m ==> EntryFits(x, hs[k], hs[k + 1], rs[k], inserts, entries[k], places[k])
    {
      var e, at := EmitOne(x, header, rs[m], inserts);
      RunOnePast(x, hs, rs, m, header[..]);
      hs := hs + [header[..]];
      entries, places := entries + [e], places + [at];
    }
    assert rs[..|rs|] == rs;
  }

  /**
   The parameters emitted for each function are those of the line that first declared it in the
   header as read, word for word.
   */
  lemma EmittedAsRead<T(!new)>(
      x: Syntax<T>, lines: iset<T>, hs: seq<seq<T>>, rs: seq<Request>, k: nat, p: Option<string>, at: nat)
    requires HeaderRun(x, hs, rs) && k < |rs| && Yields(x, hs[k + 1], rs[k], p, at)
    requires Recognisable(x, lines, rs) && SameText(x, lines, rs) && Within(hs[0], lines)
    ensures Yields(x, hs[0], rs[k], p, at)
  {
    LookupsNeverDrift(x, lines, hs, rs, k + 1, rs[k]);
  }
}
