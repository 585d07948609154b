/** `parse` and its helpers `parse_expr`, `unpack_len_one_list` and `parse_stmt`: from the flat
    token list to a list of trees, with `if` and `for` blocks nested. */
module Parser {
  import opened Results
  import opened Text
  import opened Markers

  /** The values that `parse` builds: strings, ints, tuples and lists. */
  datatype Node = Str(s: string) | Int(n: int) | Tup(elems: seq<Node>) | Lst(elems: seq<Node>)

  /** How Python reads a slice bound `i` on a sequence of length `n`: negative bounds count
      from the end, and both kinds are clamped to `0..n`. */
  function SliceBound(i: int, n: nat): (b: nat)
    ensures b <= n
    ensures 0 <= i <= n ==> b == i
    ensures i > n ==> b == n
    ensures i < 0 && 0 <= n + i ==> b == n + i
    ensures n + i < 0 ==> b == 0
  {
    if i < 0 then (if n + i < 0 then 0 else n + i) else if i > n then n else i
  }

  /** The Python slice `s[lo:hi]`. */
  function PySlice<T>(s: seq<T>, lo: int, hi: int): (r: seq<T>)
    ensures 0 <= lo <= hi <= |s| ==> r == s[lo..hi]
    ensures 0 <= hi <= lo ==> r == []
    ensures 0 <= lo <= |s| ==> |r| <= |s| - lo
    ensures 0 <= hi ==> |r| <= hi
    ensures hi < 0 && 0 <= lo <= |s| + hi ==> r == s[lo..|s| + hi]
    ensures hi < 0 && |s| > 0 ==> |r| < |s|
  {
    var a := SliceBound(lo, |s|);
    var b := SliceBound(hi, |s|);
    if a < b then s[a..b] else []
  }

  /** `token[2:-2]`: the interior of an `{{ }}` or `{% %}` marker. */
  function Strip(token: string): (r: string)
    ensures |token| >= 4 ==> |r| == |token| - 4
    ensures |token| < 4 ==> r == ""
  {
    PySlice(token, 2, -2)
  }

  /** A marker of four or more characters is its two opening characters, its interior and its
      two closing characters. */
  lemma StripMeaning(token: string)
    requires |token| >= 4
    ensures token == token[..2] + Strip(token) + token[|token| - 2..]
  {
  }

  /** `make_int`: a word of decimal digits becomes the int it spells, any other word stays. */
  function MakeInt(w: string): (r: Node)
    ensures r.Int? <==> IsDigits(w)
    ensures r.Int? ==> r.n == DigitsValue(w)
    ensures r.Str? ==> r.s == w
  {
    if IsDigits(w) then Int(DigitsValue(w)) else Str(w)
  }

  function MakeInts(ws: seq<string>): (r: seq<Node>)
    ensures |r| == |ws|
  {
    seq(|ws|, k requires 0 <= k < |ws| => MakeInt(ws[k]))
  }

  function Strs(ws: seq<string>): (r: seq<Node>)
    ensures |r| == |ws|
  {
    seq(|ws|, k requires 0 <= k < |ws| => Str(ws[k]))
  }

  /** `parse_expr`: the interior of an expression becomes the tuple of its words, each digit
      word as an int. */
  function ParseExpr(inner: string): (r: Node)
    ensures r.Tup?
  {
    Tup(MakeInts(Words(inner)))
  }

  /** The expression tree has one element per word, in order, each digit word as an int. */
  lemma ParseExprMeaning(inner: string)
    ensures |ParseExpr(inner).elems| == |Words(inner)|
    ensures forall k :: 0 <= k < |Words(inner)| ==> ParseExpr(inner).elems[k] == MakeInt(Words(inner)[k])
  {
  }

  /** `unpack_len_one_list` on a list: one element stands for itself, no element for `""`. */
  function Unpack(nodes: seq<Node>): (r: Node)
    ensures |nodes| == 1 ==> r == nodes[0]
    ensures |nodes| == 0 ==> r == Str("")
    ensures |nodes| >= 2 ==> r == Lst(nodes)
  {
    if |nodes| == 1 then nodes[0] else if |nodes| == 0 then Str("") else Lst(nodes)
  }

  /** `tokens.index(marker)` on `tokens[from:]`, as an absolute position. */
  function IndexOf(tokens: seq<string>, from: nat, marker: string): (r: Option<nat>)
    ensures r.Some? ==> from <= r.value < |tokens| && tokens[r.value] == marker
    decreases |tokens| - from
  {
    if from >= |tokens| then None
    else if tokens[from] == marker then Some(from)
    else IndexOf(tokens, from + 1, marker)
  }

  /** `tokens.index(marker)` finds the first occurrence, and fails only when there is none. */
  lemma {:induction false} IndexOfMeaning(tokens: seq<string>, from: nat, marker: string)
    ensures IndexOf(tokens, from, marker).Some? ==>
      forall k :: from <= k < IndexOf(tokens, from, marker).value ==> tokens[k] != marker
    ensures IndexOf(tokens, from, marker).None? <==>
      forall k :: from <= k < |tokens| ==> tokens[k] != marker
    decreases |tokens| - from
  {
    if from < |tokens| && tokens[from] != marker {
      IndexOfMeaning(tokens, from + 1, marker);
    }
  }

  /** `tokens.index(marker)` finds the first occurrence at or after `from`. */
  lemma {:induction false} IndexOfFirst(tokens: seq<string>, from: nat, marker: string, j: nat)
    requires from <= j < |tokens| && tokens[j] == marker
    requires forall k :: from <= k < j ==> tokens[k] != marker
    ensures IndexOf(tokens, from, marker) == Some(j)
    decreases j - from
  {
    if from < j {
      IndexOfFirst(tokens, from + 1, marker, j);
    }
  }

  /** `tokens.index(marker)` succeeds when the marker occurs. */
  lemma IndexOfFound(tokens: seq<string>, from: nat, marker: string, j: nat)
    requires from <= j < |tokens| && tokens[j] == marker
    ensures IndexOf(tokens, from, marker).Some?
  {
    IndexOfMeaning(tokens, from, marker);
  }

  /** The first word inside the marker `token` is `name`: the test that sends a statement to
      the `if` or the `for` branch of `parse_stmt`. */
  predicate Opens(token: string, name: string) {
    var ws := Words(Strip(token));
    |ws| > 0 && ws[0] == name
  }

  /** The first word inside the marker `token`, or `""` when it has none. */
  function Keyword(token: string): string {
    var ws := Words(Strip(token));
    if |ws| == 0 then "" else ws[0]
  }

  /** The words inside the marker `token` after its first. */
  function Params(token: string): seq<string> {
    var ws := Words(Strip(token));
    if |ws| == 0 then [] else ws[1..]
  }

  /** Puts the nodes parsed so far in front of the outcome of parsing the rest. */
  function Prepend(done: seq<Node>, rest: Result<seq<Node>>): Result<seq<Node>> {
    if rest.Ok? then Ok(done + rest.value) else rest
  }

  lemma PrependNothing(rest: Result<seq<Node>>)
    ensures Prepend([], rest) == rest
  {
    if rest.Ok? {
      assert [] + rest.value == rest.value;
    }
  }

  lemma PrependTwice(a: seq<Node>, b: seq<Node>, rest: Result<seq<Node>>)
    ensures Prepend(a, Prepend(b, rest)) == Prepend(a + b, rest)
  {
    if rest.Ok? {
      assert a + (b + rest.value) == (a + b) + rest.value;
    }
  }

  /** What `parse(tokens)` returns from the token at `index` on. */
  function Parsed(tokens: seq<string>, index: nat): Result<seq<Node>>
    requires index <= |tokens|
    decreases |tokens|, |tokens| - index + 3
  {
    if index == |tokens| then Ok([])
    else
      var token := tokens[index];
      if IsExpr(token) then
        Prepend([ParseExpr(Strip(token))], Parsed(tokens, index + 1))
      else if StartsStmt(token) then
        var step :- StmtParsed(tokens, index);
        Prepend([step.1], Parsed(tokens, step.0 + 1))
      else
        Prepend([Str(token)], Parsed(tokens, index + 1))
  }

  /** What `parse_stmt` returns for the statement at `index`: the position of its last token
      and its tree. An `if` becomes `("if", condition, consequence, alternative)`, a `for`
      becomes `("for", [words...], body)`, any other statement `(name, (words...))`. */
  function StmtParsed(tokens: seq<string>, index: nat): (r: Result<(nat, Node)>)
    requires index < |tokens|
    ensures r.Ok? ==> index <= r.value.0 < |tokens|
    decreases |tokens|, 2
  {
    var words := Words(Strip(tokens[index]));
    if |words| == 0 then Err(EmptyStatement(tokens[index]))
    else if words[0] == "if" then IfStmt(tokens, index, words[1..])
    else if words[0] == "for" then ForStmt(tokens, index, words[1..])
    else Ok((index, Tup([Str(words[0]), Tup(Strs(words[1..]))])))
  }

  /** The `if` branch of `parse_stmt`, up to its consequence: the check that an exact `else`
      marker follows, the `else` scan, and the consequence parsed up to the `else`. */
  function IfStmt(tokens: seq<string>, index: nat, params: seq<string>): (r: Result<(nat, Node)>)
    requires index < |tokens|
    ensures r.Ok? ==> index <= r.value.0 < |tokens|
    decreases |tokens|, 1
  {
    if IndexOf(tokens, index, ElseMarker).None? then Err(MarkerNotFound(ElseMarker))
    else
      var nextElse :- NextElse(tokens, index + 1);
      var conseq :- Parsed(PySlice(tokens, index + 1, nextElse), 0);
      IfAlt(tokens, index, params, nextElse, conseq)
  }

  /** The rest of the `if` branch: the check that an exact `endif` marker follows, the `endif`
      scan, and the alternative parsed from after the `else` up to the `endif`. */
  function IfAlt(tokens: seq<string>, index: nat, params: seq<string>, nextElse: int,
                 conseq: seq<Node>): (r: Result<(nat, Node)>)
    requires index < |tokens|
    ensures r.Ok? ==> index <= r.value.0 < |tokens|
    decreases |tokens|, 0
  {
    if IndexOf(tokens, index, EndifMarker).None? then Err(MarkerNotFound(EndifMarker))
    else
      var nextEndif :- NextEndif(tokens, index + 1);
      var alt :- Parsed(PySlice(tokens, nextElse + 1, nextEndif), 0);
      if nextEndif < 0 then Err(EndlessLoop(tokens[index]))
      else Ok((nextEndif as nat, IfNode(params, conseq, alt)))
  }

  /** `("if", condition, consequence, alternative)`; the condition is the words after `if`,
      parsed as an expression. */
  function IfNode(params: seq<string>, conseq: seq<Node>, alt: seq<Node>): Node {
    Tup([Str("if"), ParseExpr(Join(params)), Unpack(conseq), Unpack(alt)])
  }

  /** The `for` branch of `parse_stmt`: the body runs up to the first exact `endfor` marker. */
  function ForStmt(tokens: seq<string>, index: nat, params: seq<string>): (r: Result<(nat, Node)>)
    requires index < |tokens|
    ensures r.Ok? ==> index <= r.value.0 < |tokens|
    decreases |tokens|, 0
  {
    match IndexOf(tokens, index, EndforMarker)
    case None => Err(MarkerNotFound(EndforMarker))
    case Some(k) =>
      var body :- Parsed(PySlice(tokens, index + 1, k), 0);
      Ok((k, ForNode(params, body)))
  }

  /** `("for", [words...], body)`. */
  function ForNode(params: seq<string>, body: seq<Node>): Node {
    Tup([Str("for"), Lst(Strs(params)), Unpack(body)])
  }

  /** `parse(tokens)`: the loop over the tokens, with the cursor that a block statement moves
      to the block's last token. */
  method Parse(tokens: seq<string>) returns (r: Result<seq<Node>>)
    ensures r == Parsed(tokens, 0)
    decreases |tokens|, 3
  {
    if |tokens| == 0 {
      return Ok([]);
    }
    var parsed: seq<Node> := [];
    var index := 0;
    PrependNothing(Parsed(tokens, 0));
    while index < |tokens|
      invariant index <= |tokens|
      invariant Parsed(tokens, 0) == Prepend(parsed, Parsed(tokens, index))
      decreases |tokens| - index
    {
      var token := tokens[index];
      if IsExpr(token) {
        ExprTurn(tokens, index, parsed);
        parsed := parsed + [ParseExpr(Strip(token))];
      } else if StartsStmt(token) {
        var step := ParseStmt(tokens, index);
        if step.Err? {
          StmtFails(tokens, index);
          return Err(step.error);
        }
        StmtTurn(tokens, index, parsed, step);
        index := step.value.0;
        parsed := parsed + [step.value.1];
      } else {
        TextTurn(tokens, index, parsed);
        parsed := parsed + [Str(token)];
      }
      index := index + 1;
    }
    assert parsed + [] == parsed;
    return Ok(parsed);
  }

  /** `parse_stmt(token, tokens, index)` for the statement token at `index`. This method and
      the three below are the method forms of `StmtParsed`, `IfStmt`, `IfAlt` and `ForStmt`:
      they exist so that the `parse` loop of `Parse` runs the loops `FindNextElse` and
      `FindNextEndif` and calls `Parse` itself on the block bodies, and each one's ensures ties
      it to its function. */
  method ParseStmt(tokens: seq<string>, index: nat) returns (r: Result<(nat, Node)>)
    requires index < |tokens|
    ensures r == StmtParsed(tokens, index)
    decreases |tokens|, 2
  {
    var subtokens := Words(Strip(tokens[index]));
    if |subtokens| == 0 {
      return Err(EmptyStatement(tokens[index]));
    }
    var statement, params := subtokens[0], subtokens[1..];
    if statement == "if" {
      r := ParseIf(tokens, index, params);
    } else if statement == "for" {
      r := ParseFor(tokens, index, params);
    } else {
      r := Ok((index, Tup([Str(statement), Tup(Strs(params))])));
    }
  }

  /** The `if` branch of `parse_stmt`, up to its consequence: the method form of `IfStmt`. */
  method ParseIf(tokens: seq<string>, index: nat, params: seq<string>) returns (r: Result<(nat, Node)>)
    requires index < |tokens|
    ensures r == IfStmt(tokens, index, params)
    decreases |tokens|, 1
  {
    if IndexOf(tokens, index, ElseMarker).None? {
      return Err(MarkerNotFound(ElseMarker));
    }
    var nextElse :- FindNextElse(tokens, index + 1);
    var conseq :- Parse(PySlice(tokens, index + 1, nextElse));
    r := ParseIfAlt(tokens, index, params, nextElse, conseq);
  }

  /** The rest of the `if` branch, the alternative and the block's node: the method form of
      `IfAlt`. */
  method ParseIfAlt(tokens: seq<string>, index: nat, params: seq<string>, nextElse: int,
                    conseq: seq<Node>) returns (r: Result<(nat, Node)>)
    requires index < |tokens|
    ensures r == IfAlt(tokens, index, params, nextElse, conseq)
    decreases |tokens|, 0
  {
    if IndexOf(tokens, index, EndifMarker).None? {
      return Err(MarkerNotFound(EndifMarker));
    }
    var nextEndif :- FindNextEndif(tokens, index + 1);
    var alt :- Parse(PySlice(tokens, nextElse + 1, nextEndif));
    if nextEndif < 0 {
      return Err(EndlessLoop(tokens[index]));
    }
    var cond := ParseExpr(Join(params));
    return Ok((nextEndif as nat, Tup([Str("if"), cond, Unpack(conseq), Unpack(alt)])));
  }

  /** The `for` branch of `parse_stmt`: the method form of `ForStmt`. */
  method ParseFor(tokens: seq<string>, index: nat, params: seq<string>) returns (r: Result<(nat, Node)>)
    requires index < |tokens|
    ensures r == ForStmt(tokens, index, params)
    decreases |tokens|, 0
  {
    var nextEndfor := IndexOf(tokens, index, EndforMarker);
    if nextEndfor.None? {
      return Err(MarkerNotFound(EndforMarker));
    }
    var body :- Parse(PySlice(tokens, index + 1, nextEndfor.value));
    return Ok((nextEndfor.value, Tup([Str("for"), Lst(Strs(params)), Unpack(body)])));
  }

  /** The `if` branch once the scans and both branches are known to succeed. */
  lemma IfStmtParsed(tokens: seq<string>, index: nat, params: seq<string>, e: nat, f: nat,
                     conseq: seq<Node>, alt: seq<Node>)
    requires index < |tokens|
    requires IndexOf(tokens, index, ElseMarker).Some? && IndexOf(tokens, index, EndifMarker).Some?
    requires NextElse(tokens, index + 1) == Ok(e as int) && NextEndif(tokens, index + 1) == Ok(f as int)
    requires Parsed(PySlice(tokens, index + 1, e), 0) == Ok(conseq)
    requires Parsed(PySlice(tokens, e + 1, f), 0) == Ok(alt)
    ensures IfStmt(tokens, index, params) == Ok((f, IfNode(params, conseq, alt)))
  {
    IfAltParsed(tokens, index, params, e, f, conseq, alt);
  }

  lemma IfAltParsed(tokens: seq<string>, index: nat, params: seq<string>, e: int, f: nat,
                    conseq: seq<Node>, alt: seq<Node>)
    requires index < |tokens|
    requires IndexOf(tokens, index, EndifMarker).Some? && NextEndif(tokens, index + 1) == Ok(f as int)
    requires Parsed(PySlice(tokens, e + 1, f), 0) == Ok(alt)
    ensures IfAlt(tokens, index, params, e, conseq) == Ok((f, IfNode(params, conseq, alt)))
  {
  }

  /** One step of `parse` on an expression token. */
  lemma ExprStep(tokens: seq<string>, index: nat)
    requires index < |tokens| && IsExpr(tokens[index])
    ensures Parsed(tokens, index) == Prepend([ParseExpr(Strip(tokens[index]))], Parsed(tokens, index + 1))
  {
  }

  /** One step of `parse` on a text token. */
  lemma TextStep(tokens: seq<string>, index: nat)
    requires index < |tokens| && !IsExpr(tokens[index]) && !StartsStmt(tokens[index])
    ensures Parsed(tokens, index) == Prepend([Str(tokens[index])], Parsed(tokens, index + 1))
  {
  }

  /** The bookkeeping of one turn of the `parse` loop: a token at `index` that yields `node`
      and moves the cursor to `next` extends the nodes parsed so far by that node. */
  lemma Advance(tokens: seq<string>, index: nat, parsed: seq<Node>, node: Node, next: nat)
    requires index <= |tokens| && next <= |tokens|
    requires Parsed(tokens, index) == Prepend([node], Parsed(tokens, next))
    ensures Prepend(parsed, Parsed(tokens, index)) == Prepend(parsed + [node], Parsed(tokens, next))
  {
    PrependTwice(parsed, [node], Parsed(tokens, next));
  }

  lemma ExprTurn(tokens: seq<string>, index: nat, parsed: seq<Node>)
    requires index < |tokens| && IsExpr(tokens[index])
    ensures Prepend(parsed, Parsed(tokens, index)) == Prepend(parsed + [ParseExpr(Strip(tokens[index]))], Parsed(tokens, index + 1))
  {
    ExprStep(tokens, index);
    Advance(tokens, index, parsed, ParseExpr(Strip(tokens[index])), index + 1);
  }

  lemma TextTurn(tokens: seq<string>, index: nat, parsed: seq<Node>)
    requires index < |tokens| && !IsExpr(tokens[index]) && !StartsStmt(tokens[index])
    ensures Prepend(parsed, Parsed(tokens, index)) == Prepend(parsed + [Str(tokens[index])], Parsed(tokens, index + 1))
  {
    TextStep(tokens, index);
    Advance(tokens, index, parsed, Str(tokens[index]), index + 1);
  }

  lemma StmtTurn(tokens: seq<string>, index: nat, parsed: seq<Node>, step: Result<(nat, Node)>)
    requires index < |tokens| && StartsStmt(tokens[index])
    requires step == StmtParsed(tokens, index) && step.Ok?
    ensures step.value.0 < |tokens|
    ensures Prepend(parsed, Parsed(tokens, index)) == Prepend(parsed + [step.value.1], Parsed(tokens, step.value.0 + 1))
  {
    StmtUnfold(tokens, index, step);
    Advance(tokens, index, parsed, step.value.1, step.value.0 + 1);
  }

  lemma StmtUnfold(tokens: seq<string>, index: nat, step: Result<(nat, Node)>)
    requires index < |tokens| && StartsStmt(tokens[index])
    requires step == StmtParsed(tokens, index) && step.Ok?
    ensures step.value.0 < |tokens|
    ensures Parsed(tokens, index) == Prepend([step.value.1], Parsed(tokens, step.value.0 + 1))
  {
    assert !IsExpr(tokens[index]);
  }

  /** A statement that `parse_stmt` rejects makes `parse` fail with the same error. */
  lemma StmtFails(tokens: seq<string>, index: nat)
    requires index < |tokens| && StartsStmt(tokens[index])
    requires StmtParsed(tokens, index).Err?
    ensures Parsed(tokens, index) == Err(StmtParsed(tokens, index).error)
  {
    assert !IsExpr(tokens[index]);
  }

  /** `parse_stmt` on a statement that opens no block: `(name, (words...))`, ending where it
      starts. */
  lemma SimpleStmt(tokens: seq<string>, index: nat, token: string)
    requires index < |tokens| && tokens[index] == token
    requires |Words(Strip(token))| > 0 && !Opens(token, "if") && !Opens(token, "for")
    ensures StmtParsed(tokens, index) == Ok((index, Tup([Str(Keyword(token)), Tup(Strs(Params(token)))])))
  {
  }

  /** `parse_stmt` on an `if` block whose opening `token` is at `index`, once the scans are
      known to stop at the `else` at `e` and the `endif` at `f`, and both branches are known
      to parse: the block ends at `f` and becomes `("if", condition, consequence, alternative)`. */
  lemma IfBlockStmt(tokens: seq<string>, index: nat, token: string, e: nat, f: nat,
                    cs: seq<string>, als: seq<string>, conseq: seq<Node>, alt: seq<Node>)
    requires index < e < f < |tokens|
    requires tokens[index] == token && Opens(token, "if")
    requires tokens[e] == ElseMarker && tokens[f] == EndifMarker
    requires NextElse(tokens, index + 1) == Ok(e as int) && NextEndif(tokens, index + 1) == Ok(f as int)
    requires PySlice(tokens, index + 1, e) == cs && Parsed(cs, 0) == Ok(conseq)
    requires PySlice(tokens, e + 1, f) == als && Parsed(als, 0) == Ok(alt)
    ensures StmtParsed(tokens, index) == Ok((f, IfNode(Params(token), conseq, alt)))
  {
    var params := Words(Strip(token))[1..];
    assert Params(token) == params;
    IndexOfFound(tokens, index, ElseMarker, e);
    IndexOfFound(tokens, index, EndifMarker, f);
    IfStmtParsed(tokens, index, params, e, f, conseq, alt);
    assert StmtParsed(tokens, index) == IfStmt(tokens, index, params);
  }

  /** `parse_stmt` on a `for` block whose opening `token` is at `index` and whose first
      exact `endfor` marker is at `g`, once its body is known to parse: the block ends at `g`
      and becomes `("for", [words...], body)`. */
  lemma ForBlockStmt(tokens: seq<string>, index: nat, token: string, g: nat,
                     bs: seq<string>, body: seq<Node>)
    requires index < |tokens| && tokens[index] == token && Opens(token, "for")
    requires IndexOf(tokens, index, EndforMarker) == Some(g)
    requires PySlice(tokens, index + 1, g) == bs && Parsed(bs, 0) == Ok(body)
    ensures StmtParsed(tokens, index) == Ok((g, ForNode(Params(token), body)))
  {
    var params := Words(Strip(token))[1..];
    assert Params(token) == params;
    assert StmtParsed(tokens, index) == ForStmt(tokens, index, params);
  }
  /** The condition of an `if`: `parse_stmt` wraps the words after `if` into one expression
      token and parses that one-token list; the result is the expression over those words,
      and `unpack_len_one_list` takes it out of the list. */
  lemma IfConditionParsed(params: seq<string>)
    ensures Parsed(["{{" + Join(params) + "}}"], 0) == Ok([ParseExpr(Join(params))])
    ensures Unpack([ParseExpr(Join(params))]) == ParseExpr(Join(params))
  {
    var t := "{{" + Join(params) + "}}";
    assert t[2..|t| - 2] == Join(params);
    assert IsExpr(t);
    ExprStep([t], 0);
    assert [ParseExpr(Join(params))] + [] == [ParseExpr(Join(params))];
  }

  /** Re-joining the words after `if` loses nothing: the condition is the expression over
      exactly those words. */
  lemma IfConditionWords(token: string)
    ensures ParseExpr(Join(Params(token))) == Tup(MakeInts(Params(token)))
  {
    var ws := Words(Strip(token));
    WordsAreWords(Strip(token));
    if |ws| > 0 {
      assert forall k :: 0 <= k < |ws| - 1 ==> ws[1..][k] == ws[k + 1];
      WordsOfJoin(ws[1..]);
    }
  }

  /** A statement token with no word inside fails at `subtokens[0]`. */
  lemma EmptyStatementFails(tokens: seq<string>, index: nat)
    requires index < |tokens| && StartsStmt(tokens[index]) && |Words(Strip(tokens[index]))| == 0
    ensures Parsed(tokens, index) == Err(EmptyStatement(tokens[index]))
  {
    assert StmtParsed(tokens, index) == Err(EmptyStatement(tokens[index]));
    StmtFails(tokens, index);
  }

  /** An `if` with no exact `else` marker after it fails: the list's `index` finds none. */
  lemma MissingElseFails(tokens: seq<string>, index: nat)
    requires index < |tokens| && StartsStmt(tokens[index]) && Opens(tokens[index], "if")
    requires forall k :: index <= k < |tokens| ==> tokens[k] != ElseMarker
    ensures Parsed(tokens, index) == Err(MarkerNotFound(ElseMarker))
  {
    IndexOfMeaning(tokens, index, ElseMarker);
    var params := Words(Strip(tokens[index]))[1..];
    assert StmtParsed(tokens, index) == IfStmt(tokens, index, params);
    StmtFails(tokens, index);
  }

  /** An `if` whose `else` is found and whose consequence parses, but with no exact `endif`
      marker after it, fails the same way. */
  lemma MissingEndifFails(tokens: seq<string>, index: nat, e: int, conseq: seq<Node>)
    requires index < |tokens| && StartsStmt(tokens[index]) && Opens(tokens[index], "if")
    requires IndexOf(tokens, index, ElseMarker).Some? && NextElse(tokens, index + 1) == Ok(e)
    requires Parsed(PySlice(tokens, index + 1, e), 0) == Ok(conseq)
    requires forall k :: index <= k < |tokens| ==> tokens[k] != EndifMarker
    ensures Parsed(tokens, index) == Err(MarkerNotFound(EndifMarker))
  {
    IndexOfMeaning(tokens, index, EndifMarker);
    var params := Words(Strip(tokens[index]))[1..];
    assert IfAlt(tokens, index, params, e, conseq) == Err(MarkerNotFound(EndifMarker));
    assert StmtParsed(tokens, index) == IfStmt(tokens, index, params);
    StmtFails(tokens, index);
  }

  /** An `if` whose markers all exist and whose branches parse, but whose `endif` scan finds
      nothing: `find_next_endif` returns -1, the source sets `index` to -1 and `parse` starts
      over from the first token, for ever. The model reports that as an error. */
  lemma EndlessLoopFails(tokens: seq<string>, index: nat, e: int, conseq: seq<Node>, alt: seq<Node>)
    requires index < |tokens| && StartsStmt(tokens[index]) && Opens(tokens[index], "if")
    requires IndexOf(tokens, index, ElseMarker).Some? && NextElse(tokens, index + 1) == Ok(e)
    requires Parsed(PySlice(tokens, index + 1, e), 0) == Ok(conseq)
    requires IndexOf(tokens, index, EndifMarker).Some? && NextEndif(tokens, index + 1) == Ok(-1)
    requires Parsed(PySlice(tokens, e + 1, -1), 0) == Ok(alt)
    ensures Parsed(tokens, index) == Err(EndlessLoop(tokens[index]))
  {
    var params := Words(Strip(tokens[index]))[1..];
    assert IfAlt(tokens, index, params, e, conseq) == Err(EndlessLoop(tokens[index]));
    assert StmtParsed(tokens, index) == IfStmt(tokens, index, params);
    StmtFails(tokens, index);
  }

  /** A `for` with no exact `endfor` marker after it fails the same way. */
  lemma MissingEndforFails(tokens: seq<string>, index: nat)
    requires index < |tokens| && StartsStmt(tokens[index]) && Opens(tokens[index], "for")
    requires forall k :: index <= k < |tokens| ==> tokens[k] != EndforMarker
    ensures Parsed(tokens, index) == Err(MarkerNotFound(EndforMarker))
  {
    IndexOfMeaning(tokens, index, EndforMarker);
    var params := Words(Strip(tokens[index]))[1..];
    assert StmtParsed(tokens, index) == ForStmt(tokens, index, params);
    StmtFails(tokens, index);
  }
}
