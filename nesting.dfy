/** The block structure that `parse` recovers. A well-formed template is a forest of text,
    expressions, simple statements, `if ... else ... endif` blocks and `for ... endfor` blocks;
    written out flat, it is the token list that `parse` turns back into the nested value the
    forest describes. */
module Nesting {
  import opened Results
  import opened Text
  import opened Markers
  import opened Parser

  datatype Tree =
    | Plain(text: string)
    | Expr(token: string)
    | Stmt(token: string)
    | If(token: string, conseq: seq<Tree>, alt: seq<Tree>)
    | For(token: string, body: seq<Tree>)

  /** The tokens of a forest, blocks written out with the exact markers. */
  function Flatten(ts: seq<Tree>): seq<string>
    decreases ts
  {
    if |ts| == 0 then [] else FlattenOne(ts[0]) + Flatten(ts[1..])
  }

  function FlattenOne(t: Tree): seq<string>
    decreases t
  {
    match t
    case Plain(text) => [text]
    case Expr(token) => [token]
    case Stmt(token) => [token]
    case If(token, conseq, alt) => [token] + Flatten(conseq) + [ElseMarker] + Flatten(alt) + [EndifMarker]
    case For(token, body) => [token] + Flatten(body) + [EndforMarker]
  }

  /** Every node of the forest is one that `parse` and the scans read the way the tree says:
      text is neither an expression nor a statement; the `if` of a block is an `if` to the
      parser and to the scans; other statement tokens are neither `if`, `else` nor `endif` to
      the scans; and a `for` body holds no exact `endfor` marker, since `parse` takes the
      first one as the end of the loop. */
  predicate Wf(ts: seq<Tree>)
    decreases ts
  {
    |ts| == 0 || (WfOne(ts[0]) && Wf(ts[1..]))
  }

  predicate WfOne(t: Tree)
    decreases t
  {
    match t
    case Plain(text) => !IsExpr(text) && !StartsStmt(text)
    case Expr(token) => IsExpr(token)
    case Stmt(token) =>
      StartsStmt(token) && Neutral(token) && |Words(Strip(token))| > 0
      && !Opens(token, "if") && !Opens(token, "for")
    case If(token, conseq, alt) =>
      StartsStmt(token) && Opens(token, "if") && IsMarker(token, "if") && Wf(conseq) && Wf(alt)
    case For(token, body) =>
      StartsStmt(token) && Opens(token, "for") && Neutral(token) && Wf(body)
      && EndforMarker !in Flatten(body)
  }

  /** The value `parse` should build for a forest, read off the tree: text stands for itself,
      an expression for its words, a statement for its name and words, and a block for the
      block's node over the values of its branches. */
  function Expected(ts: seq<Tree>): (r: seq<Node>)
    ensures |r| == |ts|
    decreases ts
  {
    if |ts| == 0 then [] else [ExpectedOne(ts[0])] + Expected(ts[1..])
  }

  function ExpectedOne(t: Tree): Node
    decreases t
  {
    match t
    case Plain(text) => Str(text)
    case Expr(token) => ParseExpr(Strip(token))
    case Stmt(token) => Tup([Str(Keyword(token)), Tup(Strs(Params(token)))])
    case If(token, conseq, alt) => IfNode(Params(token), Expected(conseq), Expected(alt))
    case For(token, body) => ForNode(Params(token), Expected(body))
  }

  /** `piece` occurs in `s` at position `k`. */
  ghost predicate At<T>(s: seq<T>, k: nat, piece: seq<T>) {
    k + |piece| <= |s| && forall i :: 0 <= i < |piece| ==> s[k + i] == piece[i]
  }

  lemma AtSplit<T>(s: seq<T>, k: nat, a: seq<T>, b: seq<T>)
    requires At(s, k, a + b)
    ensures At(s, k, a) && At(s, k + |a|, b)
  {
    forall i | 0 <= i < |a| ensures s[k + i] == a[i] {
      assert (a + b)[i] == a[i];
    }
    forall i | 0 <= i < |b| ensures s[k + |a| + i] == b[i] {
      assert (a + b)[|a| + i] == b[i];
    }
  }

  lemma AtOne<T>(s: seq<T>, k: nat, x: T)
    requires At(s, k, [x])
    ensures k < |s| && s[k] == x
  {
    assert s[k + 0] == [x][0];
  }

  /** A piece at `k` is the slice of `s` that starts there. */
  lemma AtSlice<T>(s: seq<T>, k: nat, piece: seq<T>)
    requires At(s, k, piece)
    ensures s[k..k + |piece|] == piece
  {
    forall i | 0 <= i < |piece| ensures s[k..k + |piece|][i] == piece[i] {
      assert s[k + i] == piece[i];
    }
  }

  /** The positions of the parts of an `if` block that starts at `k`: its `else` is at
      `e` and its `endif` at `f`. */
  lemma IfBlockAt<T>(s: seq<T>, k: nat, open: T, conseq: seq<T>, middle: T, alt: seq<T>, close: T,
                     e: nat, f: nat)
    requires e == k + 1 + |conseq| && f == e + 1 + |alt|
    requires At(s, k, [open] + conseq + [middle] + alt + [close])
    ensures f < |s| && s[k] == open && At(s, k + 1, conseq)
    ensures s[e] == middle && At(s, e + 1, alt) && s[f] == close
  {
    AtSplit(s, k, [open] + conseq + [middle] + alt, [close]);
    AtSplit(s, k, [open] + conseq + [middle], alt);
    AtSplit(s, k, [open] + conseq, [middle]);
    AtSplit(s, k, [open], conseq);
    AtOne(s, k, open);
    AtOne(s, e, middle);
    AtOne(s, f, close);
  }

  /** The positions of the parts of a `for` block that starts at `k`. */
  lemma ForBlockAt<T>(s: seq<T>, k: nat, open: T, body: seq<T>, close: T)
    requires At(s, k, [open] + body + [close])
    ensures s[k] == open && At(s, k + 1, body)
    ensures s[k + 1 + |body|] == close
  {
    AtSplit(s, k, [open] + body, [close]);
    AtSplit(s, k, [open], body);
    AtOne(s, k, open);
    AtOne(s, k + 1 + |body|, close);
  }

  /** The kinds of a forest's tokens, read off the tree. */
  function FlatKinds(ts: seq<Tree>): seq<Kind>
    decreases ts
  {
    if |ts| == 0 then [] else FlatKindsOne(ts[0]) + FlatKinds(ts[1..])
  }

  function FlatKindsOne(t: Tree): seq<Kind>
    decreases t
  {
    match t
    case If(_, conseq, alt) => [IfKind] + FlatKinds(conseq) + [ElseKind] + FlatKinds(alt) + [EndifKind]
    case For(_, body) => [OtherKind] + FlatKinds(body) + [OtherKind]
    case _ => [OtherKind]
  }

  lemma KindsAppend(a: seq<string>, b: seq<string>)
    ensures Kinds(a + b) == Kinds(a) + Kinds(b)
  {
  }

  lemma KindsAt(tokens: seq<string>, k: nat, piece: seq<string>)
    requires At(tokens, k, piece)
    ensures At(Kinds(tokens), k, Kinds(piece))
  {
    forall i | 0 <= i < |piece| ensures Kinds(tokens)[k + i] == Kinds(piece)[i] {
      assert tokens[k + i] == piece[i];
    }
  }

  lemma NotStatementKind(token: string)
    requires !StartsStmt(token)
    ensures KindOf(token) == OtherKind
  {
  }

  lemma ElseMarkerKind(token: string)
    requires token == ElseMarker
    ensures KindOf(token) == ElseKind
  {
    ElseMarkerIsElse(token);
  }

  lemma EndifMarkerKind(token: string)
    requires token == EndifMarker
    ensures KindOf(token) == EndifKind
  {
    EndifMarkerIsEndif(token);
  }

  lemma EndforMarkerKind(token: string)
    requires token == EndforMarker
    ensures KindOf(token) == OtherKind
  {
    EndforMarkerIsNeutral(token);
  }

  /** In a well-formed forest, every token has the kind its place in the tree gives it. */
  lemma {:induction false} KindsOfFlatten(ts: seq<Tree>)
    requires Wf(ts)
    ensures Kinds(Flatten(ts)) == FlatKinds(ts)
    decreases ts, 2
  {
    if |ts| > 0 {
      KindsAppend(FlattenOne(ts[0]), Flatten(ts[1..]));
      KindsOfFlattenOne(ts[0]);
      KindsOfFlatten(ts[1..]);
    }
  }

  lemma {:induction false} KindsOfFlattenOne(t: Tree)
    requires WfOne(t)
    ensures Kinds(FlattenOne(t)) == FlatKindsOne(t)
    decreases t, 1
  {
    match t
    case Plain(text) =>
      NotStatementKind(text);
      assert Kinds([text]) == [KindOf(text)];
    case Expr(token) =>
      NotStatementKind(token);
      assert Kinds([token]) == [KindOf(token)];
    case Stmt(token) =>
      assert Kinds([token]) == [KindOf(token)];
    case If(_, _, _) =>
      KindsOfIf(t);
    case For(token, body) =>
      var g := EndforMarker;
      EndforMarkerKind(g);
      KindsOfFlatten(body);
      var fb := Flatten(body);
      calc {
        Kinds(FlattenOne(t));
        Kinds([token] + fb + [g]);
        { KindsAppend([token] + fb, [g]);
          KindsAppend([token], fb); }
        Kinds([token]) + Kinds(fb) + Kinds([g]);
        { assert Kinds([token]) == [KindOf(token)];
          assert Kinds([g]) == [KindOf(g)]; }
        FlatKindsOne(t);
      }
  }

  /** The kinds of an `if` block whose opening token is an `if` to the scans. */
  lemma {:induction false} KindsOfIf(t: Tree)
    requires t.If? && IsMarker(t.token, "if") && Wf(t.conseq) && Wf(t.alt)
    ensures Kinds(FlattenOne(t)) == FlatKindsOne(t)
    decreases t, 0
  {
    var token, e, f := t.token, ElseMarker, EndifMarker;
    ElseMarkerKind(e);
    EndifMarkerKind(f);
    IfMarkerIsOnlyIf(token);
    KindsOfFlatten(t.conseq);
    KindsOfFlatten(t.alt);
    var fc, fa := Flatten(t.conseq), Flatten(t.alt);
    calc {
      Kinds(FlattenOne(t));
      Kinds([token] + fc + [e] + fa + [f]);
      { KindsAppend([token] + fc + [e] + fa, [f]);
        KindsAppend([token] + fc + [e], fa);
        KindsAppend([token] + fc, [e]);
        KindsAppend([token], fc); }
      Kinds([token]) + Kinds(fc) + Kinds([e]) + Kinds(fa) + Kinds([f]);
      { assert Kinds([token]) == [KindOf(token)];
        assert Kinds([e]) == [KindOf(e)];
        assert Kinds([f]) == [KindOf(f)]; }
      FlatKindsOne(t);
    }
  }

  /** Over the kinds of a well-formed forest, the `else` scan ends in the state it started
      in: with at least as many `if`s as `endif`s counted, no `else` inside it is taken. */
  lemma {:induction false} ElseSkips(ks: seq<Kind>, k: nat, open: int, ts: seq<Tree>)
    requires open >= 0 && At(ks, k, FlatKinds(ts))
    ensures ElseScan(ks, k, open) == ElseScan(ks, k + |FlatKinds(ts)|, open)
    decreases ts, 1
  {
    if |ts| > 0 {
      AtSplit(ks, k, FlatKindsOne(ts[0]), FlatKinds(ts[1..]));
      ElseSkipsOne(ks, k, open, ts[0]);
      ElseSkips(ks, k + |FlatKindsOne(ts[0])|, open, ts[1..]);
    }
  }

  lemma {:induction false} ElseSkipsOne(ks: seq<Kind>, k: nat, open: int, t: Tree)
    requires open >= 0 && At(ks, k, FlatKindsOne(t))
    ensures ElseScan(ks, k, open) == ElseScan(ks, k + |FlatKindsOne(t)|, open)
    decreases t, 0
  {
    match t
    case If(_, conseq, alt) =>
      var fc, fa := FlatKinds(conseq), FlatKinds(alt);
      var e := k + 1 + |fc|;
      var f := e + 1 + |fa|;
      IfBlockAt(ks, k, IfKind, fc, ElseKind, fa, EndifKind, e, f);
      assert k + |FlatKindsOne(t)| == f + 1;
      calc {
        ElseScan(ks, k, open);
        ElseScan(ks, k + 1, open + 1);
        { ElseSkips(ks, k + 1, open + 1, conseq); }
        ElseScan(ks, e, open + 1);
        ElseScan(ks, e + 1, open + 1);
        { ElseSkips(ks, e + 1, open + 1, alt); }
        ElseScan(ks, f, open + 1);
        ElseScan(ks, f + 1, open);
      }
    case For(_, body) =>
      var fb := FlatKinds(body);
      ForBlockAt(ks, k, OtherKind, fb, OtherKind);
      ElseSkips(ks, k + 1, open, body);
    case _ =>
      AtOne(ks, k, OtherKind);
  }

  /** Over the kinds of a well-formed forest, the `endif` scan ends in the state it started
      in: every `endif` inside it closes an `if` inside it. */
  lemma {:induction false} EndifSkips(ks: seq<Kind>, k: nat, open: int, ts: seq<Tree>)
    requires open >= 0 && At(ks, k, FlatKinds(ts))
    ensures EndifScan(ks, k, open) == EndifScan(ks, k + |FlatKinds(ts)|, open)
    decreases ts, 1
  {
    if |ts| > 0 {
      AtSplit(ks, k, FlatKindsOne(ts[0]), FlatKinds(ts[1..]));
      EndifSkipsOne(ks, k, open, ts[0]);
      EndifSkips(ks, k + |FlatKindsOne(ts[0])|, open, ts[1..]);
    }
  }

  lemma {:induction false} EndifSkipsOne(ks: seq<Kind>, k: nat, open: int, t: Tree)
    requires open >= 0 && At(ks, k, FlatKindsOne(t))
    ensures EndifScan(ks, k, open) == EndifScan(ks, k + |FlatKindsOne(t)|, open)
    decreases t, 0
  {
    match t
    case If(_, conseq, alt) =>
      var fc, fa := FlatKinds(conseq), FlatKinds(alt);
      var e := k + 1 + |fc|;
      var f := e + 1 + |fa|;
      IfBlockAt(ks, k, IfKind, fc, ElseKind, fa, EndifKind, e, f);
      assert k + |FlatKindsOne(t)| == f + 1;
      calc {
        EndifScan(ks, k, open);
        EndifScan(ks, k + 1, open + 1);
        { EndifSkips(ks, k + 1, open + 1, conseq); }
        EndifScan(ks, e, open + 1);
        EndifScan(ks, e + 1, open + 1);
        { EndifSkips(ks, e + 1, open + 1, alt); }
        EndifScan(ks, f, open + 1);
        EndifScan(ks, f + 1, open);
      }
    case For(_, body) =>
      var fb := FlatKinds(body);
      ForBlockAt(ks, k, OtherKind, fb, OtherKind);
      EndifSkips(ks, k + 1, open, body);
    case _ =>
      AtOne(ks, k, OtherKind);
  }

  /** The exact `endfor` marker does not open a loop, so the search for it never stops at
      the `for` token itself. */
  lemma EndforOpensNoLoop(token: string)
    requires token == EndforMarker
    ensures !Opens(token, "for")
  {
    assert Strip(token) == " endfor ";
    assert Join(["endfor"]) == "endfor";
    assert " " + Join(["endfor"]) + " " == " endfor ";
    WordsOfPadded(["endfor"]);
  }

  /** Over kinds, both scans started just after an `if` block's opening token stop at the
      block's own `else` and `endif`. */
  lemma IfKindsScans(ks: seq<Kind>, index: nat, t: Tree)
    requires t.If? && At(ks, index, FlatKindsOne(t))
    ensures ElseScan(ks, index + 1, 0) == Found(index + 1 + |FlatKinds(t.conseq)|)
    ensures EndifScan(ks, index + 1, 0) == Found(index + 2 + |FlatKinds(t.conseq)| + |FlatKinds(t.alt)|)
  {
    var fc, fa := FlatKinds(t.conseq), FlatKinds(t.alt);
    var e := index + 1 + |fc|;
    var f := e + 1 + |fa|;
    IfBlockAt(ks, index, IfKind, fc, ElseKind, fa, EndifKind, e, f);
    ElseSkips(ks, index + 1, 0, t.conseq);
    EndifSkips(ks, index + 1, 0, t.conseq);
    EndifSkips(ks, e + 1, 0, t.alt);
  }

  /** A forest and its kinds have the same length. */
  lemma FlatKindsLength(ts: seq<Tree>)
    requires Wf(ts)
    ensures |FlatKinds(ts)| == |Flatten(ts)|
  {
    KindsOfFlatten(ts);
  }

  /** Both scans of an `if` block at `index` with well-formed branches stop at the block's
      own `else` and `endif`. */
  lemma IfBlockScans(tokens: seq<string>, index: nat, t: Tree, e: nat, f: nat)
    requires t.If? && IsMarker(t.token, "if") && Wf(t.conseq) && Wf(t.alt)
    requires At(tokens, index, FlattenOne(t))
    requires e == index + 1 + |Flatten(t.conseq)| && f == e + 1 + |Flatten(t.alt)|
    ensures NextElse(tokens, index + 1) == Ok(e as int)
    ensures NextEndif(tokens, index + 1) == Ok(f as int)
  {
    KindsAt(tokens, index, FlattenOne(t));
    KindsOfIf(t);
    FlatKindsLength(t.conseq);
    FlatKindsLength(t.alt);
    IfKindsScans(Kinds(tokens), index, t);
    ElseScanOfKinds(tokens, index + 1, 0);
    EndifScanOfKinds(tokens, index + 1, 0);
  }

  /** Where the parts of an `if` block at `index` lie, with its `else` at `e` and its `endif`
      at `f`. */
  lemma IfBlockShape(tokens: seq<string>, index: nat, t: Tree, e: nat, f: nat)
    requires t.If? && At(tokens, index, FlattenOne(t))
    requires e == index + 1 + |Flatten(t.conseq)| && f == e + 1 + |Flatten(t.alt)|
    ensures f < |tokens| && tokens[index] == t.token && index + |FlattenOne(t)| == f + 1
    ensures tokens[e] == ElseMarker && tokens[f] == EndifMarker
    ensures At(tokens, index + 1, Flatten(t.conseq)) && At(tokens, e + 1, Flatten(t.alt))
  {
    var fc, fa := Flatten(t.conseq), Flatten(t.alt);
    assert FlattenOne(t) == [t.token] + fc + [ElseMarker] + fa + [EndifMarker];
    IfBlockAt(tokens, index, t.token, fc, ElseMarker, fa, EndifMarker, e, f);
  }

  /** What `parse_stmt` sees of an `if` block at `index` with well-formed branches: its
      markers, both scans stopping at them, and the branches as the slices between them. */
  lemma IfBlockFacts(tokens: seq<string>, index: nat, t: Tree, e: nat, f: nat)
    requires t.If? && IsMarker(t.token, "if") && Wf(t.conseq) && Wf(t.alt)
    requires At(tokens, index, FlattenOne(t))
    requires e == index + 1 + |Flatten(t.conseq)| && f == e + 1 + |Flatten(t.alt)|
    ensures f < |tokens| && tokens[index] == t.token && index + |FlattenOne(t)| == f + 1
    ensures tokens[e] == ElseMarker && tokens[f] == EndifMarker
    ensures NextElse(tokens, index + 1) == Ok(e as int)
    ensures NextEndif(tokens, index + 1) == Ok(f as int)
    ensures PySlice(tokens, index + 1, e) == Flatten(t.conseq)
    ensures PySlice(tokens, e + 1, f) == Flatten(t.alt)
  {
    IfBlockShape(tokens, index, t, e, f);
    AtSlice(tokens, index + 1, Flatten(t.conseq));
    AtSlice(tokens, e + 1, Flatten(t.alt));
    IfBlockScans(tokens, index, t, e, f);
  }

  /** What `parse_stmt` sees of a `for` block at `index` whose body holds no exact `endfor`
      marker: the search for `endfor` stops at the block's own, and the body is the slice
      before it. */
  lemma ForBlockFacts(tokens: seq<string>, index: nat, t: Tree, g: nat)
    requires t.For? && Opens(t.token, "for") && EndforMarker !in Flatten(t.body)
    requires At(tokens, index, FlattenOne(t))
    requires g == index + 1 + |Flatten(t.body)|
    ensures index < g < |tokens| && tokens[index] == t.token && index + |FlattenOne(t)| == g + 1
    ensures IndexOf(tokens, index, EndforMarker) == Some(g)
    ensures PySlice(tokens, index + 1, g) == Flatten(t.body)
  {
    var fb := Flatten(t.body);
    assert FlattenOne(t) == [t.token] + fb + [EndforMarker];
    ForBlockAt(tokens, index, t.token, fb, EndforMarker);
    if t.token == EndforMarker {
      EndforOpensNoLoop(t.token);
    }
    forall k | index + 1 <= k < g ensures tokens[k] != EndforMarker {
      assert tokens[k] == fb[k - index - 1];
    }
    IndexOfFirst(tokens, index, EndforMarker, g);
    AtSlice(tokens, index + 1, fb);
  }

  /** What `parse_stmt` makes of an `if` block at `index` whose branches parse as their trees
      say: the block's `("if", condition, consequence, alternative)` node, ending at `last`. */
  lemma IfNodeStmt(tokens: seq<string>, index: nat, t: Tree, last: nat)
    requires t.If? && Opens(t.token, "if") && IsMarker(t.token, "if")
    requires Wf(t.conseq) && Wf(t.alt) && At(tokens, index, FlattenOne(t))
    requires last + 1 == index + |FlattenOne(t)|
    requires Parsed(Flatten(t.conseq), 0) == Ok(Expected(t.conseq))
    requires Parsed(Flatten(t.alt), 0) == Ok(Expected(t.alt))
    ensures index < |tokens| && tokens[index] == t.token
    ensures StmtParsed(tokens, index) == Ok((last, ExpectedOne(t)))
  {
    var e := index + 1 + |Flatten(t.conseq)|;
    var f := e + 1 + |Flatten(t.alt)|;
    IfBlockShape(tokens, index, t, e, f);
    IfBlockScans(tokens, index, t, e, f);
    assert f == last;
    IfBranchesStmt(tokens, index, t.token, e, f, Flatten(t.conseq), Flatten(t.alt),
                   Expected(t.conseq), Expected(t.alt));
    assert ExpectedOne(t) == IfNode(Params(t.token), Expected(t.conseq), Expected(t.alt));
  }

  /** `parse_stmt` on an `if` block whose branches `cs` and `als` lie right after its opening
      token and right after its `else`. */
  lemma IfBranchesStmt(tokens: seq<string>, index: nat, token: string, e: nat, f: nat,
                       cs: seq<string>, als: seq<string>, conseq: seq<Node>, alt: seq<Node>)
    requires index < e < f < |tokens|
    requires tokens[index] == token && Opens(token, "if")
    requires tokens[e] == ElseMarker && tokens[f] == EndifMarker
    requires NextElse(tokens, index + 1) == Ok(e as int) && NextEndif(tokens, index + 1) == Ok(f as int)
    requires e == index + 1 + |cs| && At(tokens, index + 1, cs) && Parsed(cs, 0) == Ok(conseq)
    requires f == e + 1 + |als| && At(tokens, e + 1, als) && Parsed(als, 0) == Ok(alt)
    ensures StmtParsed(tokens, index) == Ok((f, IfNode(Params(token), conseq, alt)))
  {
    AtPySlice(tokens, index + 1, e, cs);
    AtPySlice(tokens, e + 1, f, als);
    IfBlockStmt(tokens, index, token, e, f, cs, als, conseq, alt);
  }

  /** A piece at `lo` is the Python slice from `lo` to its end. */
  lemma AtPySlice<T>(s: seq<T>, lo: nat, hi: nat, piece: seq<T>)
    requires At(s, lo, piece) && hi == lo + |piece|
    ensures PySlice(s, lo, hi) == piece
  {
    AtSlice(s, lo, piece);
  }

  /** What `parse_stmt` makes of a `for` block at `index` whose body parses as its trees say:
      the loop's `("for", [words...], body)` node, ending at `last`. */
  lemma ForNodeStmt(tokens: seq<string>, index: nat, t: Tree, last: nat)
    requires t.For? && Opens(t.token, "for")
    requires EndforMarker !in Flatten(t.body) && At(tokens, index, FlattenOne(t))
    requires last + 1 == index + |FlattenOne(t)|
    requires Parsed(Flatten(t.body), 0) == Ok(Expected(t.body))
    ensures index < |tokens| && tokens[index] == t.token
    ensures StmtParsed(tokens, index) == Ok((last, ExpectedOne(t)))
  {
    var g := index + 1 + |Flatten(t.body)|;
    ForBlockFacts(tokens, index, t, g);
    assert g == last;
    ForBlockStmt(tokens, index, t.token, g, Flatten(t.body), Expected(t.body));
    assert ExpectedOne(t) == ForNode(Params(t.token), Expected(t.body));
  }

  /** An `if` block at `index` whose branches parse as their trees say: `parse` builds the
      block's node and goes on right after it. */
  lemma IfBlockParsed(tokens: seq<string>, index: nat, t: Tree, last: nat)
    requires t.If? && StartsStmt(t.token) && Opens(t.token, "if") && IsMarker(t.token, "if")
    requires Wf(t.conseq) && Wf(t.alt) && At(tokens, index, FlattenOne(t))
    requires last + 1 == index + |FlattenOne(t)|
    requires Parsed(Flatten(t.conseq), 0) == Ok(Expected(t.conseq))
    requires Parsed(Flatten(t.alt), 0) == Ok(Expected(t.alt))
    ensures Parsed(tokens, index) == Prepend([ExpectedOne(t)], Parsed(tokens, last + 1))
  {
    IfNodeStmt(tokens, index, t, last);
    StmtStep(tokens, index, last, ExpectedOne(t));
  }

  /** A statement that `parse_stmt` turns into `n`, ending at `last`: `parse` puts `n` first
      and goes on after `last`. */
  lemma StmtStep(tokens: seq<string>, index: nat, last: nat, n: Node)
    requires index < |tokens| && StartsStmt(tokens[index])
    requires StmtParsed(tokens, index) == Ok((last, n))
    ensures Parsed(tokens, index) == Prepend([n], Parsed(tokens, last + 1))
  {
    StmtUnfold(tokens, index, Ok((last, n)));
  }

  /** A `for` block at `index` whose body parses as its trees say: `parse` builds the loop's
      node and goes on right after it. */
  lemma ForBlockParsed(tokens: seq<string>, index: nat, t: Tree, last: nat)
    requires t.For? && StartsStmt(t.token) && Opens(t.token, "for")
    requires EndforMarker !in Flatten(t.body) && At(tokens, index, FlattenOne(t))
    requires last + 1 == index + |FlattenOne(t)|
    requires Parsed(Flatten(t.body), 0) == Ok(Expected(t.body))
    ensures Parsed(tokens, index) == Prepend([ExpectedOne(t)], Parsed(tokens, last + 1))
  {
    ForNodeStmt(tokens, index, t, last);
    StmtStep(tokens, index, last, ExpectedOne(t));
  }

  /** A statement that opens no block, at `index`: `parse` turns it into `(name, (words...))`
      and goes on with the next token. */
  lemma StmtNodeParsed(tokens: seq<string>, index: nat, token: string)
    requires StartsStmt(token) && |Words(Strip(token))| > 0
    requires !Opens(token, "if") && !Opens(token, "for") && At(tokens, index, [token])
    ensures Parsed(tokens, index) ==
      Prepend([Tup([Str(Keyword(token)), Tup(Strs(Params(token)))])], Parsed(tokens, index + 1))
  {
    AtOne(tokens, index, token);
    SimpleStmt(tokens, index, token);
    StmtUnfold(tokens, index, StmtParsed(tokens, index));
  }

  /** One node of a well-formed forest, at `index`: `parse` turns it into its tree and goes
      on right after it. */
  lemma NodeParsed(tokens: seq<string>, index: nat, t: Tree)
    requires WfOne(t) && At(tokens, index, FlattenOne(t))
    requires t.If? ==> Parsed(Flatten(t.conseq), 0) == Ok(Expected(t.conseq))
    requires t.If? ==> Parsed(Flatten(t.alt), 0) == Ok(Expected(t.alt))
    requires t.For? ==> Parsed(Flatten(t.body), 0) == Ok(Expected(t.body))
    ensures Parsed(tokens, index) ==
      Prepend([ExpectedOne(t)], Parsed(tokens, index + |FlattenOne(t)|))
  {
    match t
    case Plain(text) =>
      AtOne(tokens, index, text);
      TextStep(tokens, index);
    case Expr(token) =>
      AtOne(tokens, index, token);
      ExprStep(tokens, index);
    case Stmt(token) =>
      StmtNodeParsed(tokens, index, token);
    case If(_, _, _) =>
      IfBlockParsed(tokens, index, t, index + |FlattenOne(t)| - 1);
    case For(_, _) =>
      ForBlockParsed(tokens, index, t, index + |FlattenOne(t)| - 1);
  }

  /** The nesting theorem, from `index` on: `parse` turns the flat tokens of a well-formed
      forest into the nested value that the forest describes. Each `if` takes the `else` and
      the `endif` at its own depth, and each `for` its own `endfor`. */
  lemma {:induction false} ParseFlattened(tokens: seq<string>, index: nat, ts: seq<Tree>)
    requires Wf(ts) && At(tokens, index, Flatten(ts)) && index + |Flatten(ts)| == |tokens|
    ensures Parsed(tokens, index) == Ok(Expected(ts))
    decreases ts, 1
  {
    if |ts| > 0 {
      var t, rest := ts[0], ts[1..];
      AtSplit(tokens, index, FlattenOne(t), Flatten(rest));
      BranchesParsed(ts);
      NodeParsed(tokens, index, t);
      ParseFlattened(tokens, index + |FlattenOne(t)|, rest);
    }
  }

  /** The branches of the first node of a well-formed forest parse to their values. */
  lemma {:induction false} BranchesParsed(ts: seq<Tree>)
    requires |ts| > 0 && Wf(ts)
    ensures ts[0].If? ==> Parsed(Flatten(ts[0].conseq), 0) == Ok(Expected(ts[0].conseq))
    ensures ts[0].If? ==> Parsed(Flatten(ts[0].alt), 0) == Ok(Expected(ts[0].alt))
    ensures ts[0].For? ==> Parsed(Flatten(ts[0].body), 0) == Ok(Expected(ts[0].body))
    decreases ts, 0
  {
    match ts[0] {
      case If(_, conseq, alt) =>
        ParseOfFlattened(conseq);
        ParseOfFlattened(alt);
      case For(_, body) =>
        ParseOfFlattened(body);
      case _ =>
    }
  }

  /** The nesting theorem for a whole token list, the form in which a template's tokens
      reach `parse`. */
  lemma {:induction false} ParseOfFlattened(ts: seq<Tree>)
    requires Wf(ts)
    ensures Parsed(Flatten(ts), 0) == Ok(Expected(ts))
    decreases ts, 2
  {
    AtWhole(Flatten(ts));
    ParseFlattened(Flatten(ts), 0, ts);
  }

  lemma AtWhole<T>(s: seq<T>)
    ensures At(s, 0, s)
  {
  }
}
