/** Classifying tokens, and the depth-counting scans `find_next_else` and `find_next_endif`
    that find the `else` and the `endif` belonging to an `if`. */
module Markers {
  import opened Results
  import opened Text
  import Lexer

  const ElseMarker := "{% else %}"
  const EndifMarker := "{% endif %}"
  const EndforMarker := "{% endfor %}"

  /** `token.startswith("{{")`. */
  predicate IsExpr(token: string) {
    |token| >= 2 && token[0] == '{' && token[1] == '{'
  }

  /** Every tag the lexer cuts out is either an expression or a statement, never both, and it
      ends with the closer that matches its opener. */
  lemma TagIsExprOrStmt(s: string)
    requires Lexer.IsTag(s)
    ensures IsExpr(s) != StartsStmt(s)
    ensures IsExpr(s) ==> s[|s| - 2..] == "}}"
    ensures StartsStmt(s) ==> s[|s| - 2..] == "%}"
  {
    assert s[|s| - 2..] == [s[|s| - 2], s[|s| - 1]];
  }

  /** `token.startswith("{%")`. */
  predicate StartsStmt(token: string) {
    |token| >= 2 && token[0] == '{' && token[1] == '%'
  }

  /** `is_stmt(token, type_)`. Without a type: does the token open with `{%`? With a type: is
      the second whitespace-separated word of the token that type, ignoring case? A statement
      token of fewer than two words has no second word, and Python's indexing fails. */
  function IsStmt(token: string, ty: Option<string>): (r: Result<bool>)
    ensures !StartsStmt(token) ==> r == Ok(false)
    ensures ty.None? ==> r == Ok(StartsStmt(token))
    ensures r.Err? <==> ty.Some? && StartsStmt(token) && |Words(token)| < 2
    ensures r == Ok(true) && ty.Some? ==> Lower(Words(token)[1]) == Lower(ty.value)
  {
    if StartsStmt(token) then
      if ty.None? then Ok(true)
      else
        var ws := Words(token);
        if |ws| < 2 then Err(MissingTypeWord(token))
        else Ok(Lower(ws[1]) == Lower(ty.value))
    else Ok(false)
  }

  /** `is_stmt(token, ty)` holds without error. */
  predicate IsMarker(token: string, ty: string) {
    IsStmt(token, Some(ty)) == Ok(true)
  }

  /** A statement token on which `is_stmt(token, ty)` fails, whatever `ty` is. */
  predicate Faulty(token: string) {
    StartsStmt(token) && |Words(token)| < 2
  }

  /** The change that one token makes to the number of open `if`s. */
  function Delta(token: string): int {
    if IsMarker(token, "if") then 1 else if IsMarker(token, "endif") then -1 else 0
  }

  /** The number of `if` markers minus the number of `endif` markers in `tokens[i..j]`. */
  function Depth(tokens: seq<string>, i: nat, j: nat): int
    requires j <= |tokens|
    decreases j
  {
    if j <= i then 0 else Depth(tokens, i, j - 1) + Delta(tokens[j - 1])
  }

  /** No token of `tokens[i..j]` makes `is_stmt` fail. */
  predicate Clean(tokens: seq<string>, i: nat, j: nat)
    requires j <= |tokens|
  {
    forall k :: i <= k < j ==> !Faulty(tokens[k])
  }

  /** `j` is an `else` that no `if` opened after `i` can own: counted from `i`, at most as many
      `if`s as `endif`s come before it. */
  predicate ElseTarget(tokens: seq<string>, i: nat, j: nat) {
    i <= j < |tokens| && IsMarker(tokens[j], "else") && Depth(tokens, i, j + 1) <= 0
  }

  /** `j` is the `endif` at which, counted from `i`, the `endif`s first outnumber the `if`s. */
  predicate EndifTarget(tokens: seq<string>, i: nat, j: nat) {
    i <= j < |tokens| && IsMarker(tokens[j], "endif") && Depth(tokens, i, j + 1) == -1
  }

  predicate NoElseTargetBefore(tokens: seq<string>, i: nat, j: nat) {
    forall k :: i <= k < j ==> !ElseTarget(tokens, i, k)
  }

  predicate NoEndifTargetBefore(tokens: seq<string>, i: nat, j: nat) {
    forall k :: i <= k < j ==> !EndifTarget(tokens, i, k)
  }

  /** The scan of `find_next_else` from position `k`, with `open` `if`s counted so far. */
  function NextElseFrom(tokens: seq<string>, k: nat, open: int): (r: Result<int>)
    ensures r.Ok? ==> r.value == -1 || k <= r.value < |tokens|
    decreases |tokens| - k
  {
    if k >= |tokens| then Ok(-1)
    else
      var token := tokens[k];
      // Only the first `is_stmt` call on a token can fail: once it succeeds the token has a
      // second word, and the later calls on it are plain tests.
      var isIf :- IsStmt(token, Some("if"));
      var open1 := if isIf then open + 1 else open;
      var open2 := if IsMarker(token, "endif") then open1 - 1 else open1;
      if open2 <= 0 && IsMarker(token, "else") then Ok(k) else NextElseFrom(tokens, k + 1, open2)
  }

  /** `find_next_else(tokens, index)`: the index of the `else` of the `if` just before `index`,
      or -1. */
  function NextElse(tokens: seq<string>, index: nat): (r: Result<int>)
    ensures r.Ok? ==> r.value == -1 || index <= r.value < |tokens|
  {
    NextElseFrom(tokens, index, 0)
  }

  /** The scan of `find_next_endif` from position `k`, with `open` `if`s counted so far. */
  function NextEndifFrom(tokens: seq<string>, k: nat, open: int): (r: Result<int>)
    ensures r.Ok? ==> r.value == -1 || k <= r.value < |tokens|
    decreases |tokens| - k
  {
    if k >= |tokens| then Ok(-1)
    else
      var token := tokens[k];
      var isIf :- IsStmt(token, Some("if"));
      if isIf then NextEndifFrom(tokens, k + 1, open + 1)
      else
        var isEndif := IsMarker(token, "endif");
        if isEndif && open - 1 == 0 then NextEndifFrom(tokens, k + 1, 0)
        else
          var open1 := if isEndif then open - 1 else open;
          if open1 <= 0 && isEndif then Ok(k) else NextEndifFrom(tokens, k + 1, open1)
  }

  /** `find_next_endif(tokens, index)`: the index of the `endif` of the `if` just before
      `index`, or -1. */
  function NextEndif(tokens: seq<string>, index: nat): (r: Result<int>)
    ensures r.Ok? ==> r.value == -1 || index <= r.value < |tokens|
  {
    NextEndifFrom(tokens, index, 0)
  }

  /** `find_next_else`, with its loop over `enumerate(tokens[index:])` and its counter. */
  method FindNextElse(tokens: seq<string>, index: nat) returns (r: Result<int>)
    ensures r == NextElse(tokens, index)
    ensures r.Ok? && r.value >= 0 ==>
      ElseTarget(tokens, index, r.value) && NoElseTargetBefore(tokens, index, r.value)
    ensures r == Ok(-1) ==> NoElseTargetBefore(tokens, index, |tokens|)
  {
    var openIfs := 0;
    var k := index;
    while k < |tokens|
      invariant NextElseFrom(tokens, k, openIfs) == NextElse(tokens, index)
      decreases |tokens| - k
    {
      var token := tokens[k];
      var isIf :- IsStmt(token, Some("if"));
      if isIf {
        openIfs := openIfs + 1;
      }
      // The token has a second word now, so the remaining `is_stmt` calls cannot fail.
      if IsMarker(token, "endif") {
        openIfs := openIfs - 1;
      }
      if openIfs <= 0 {
        if IsMarker(token, "else") {
          NextElseMeaning(tokens, index);
          return Ok(k);
        }
      }
      k := k + 1;
    }
    NextElseMeaning(tokens, index);
    return Ok(-1);
  }

  /** `find_next_endif`, with its loop, its counter and its `continue`. */
  method FindNextEndif(tokens: seq<string>, index: nat) returns (r: Result<int>)
    ensures r == NextEndif(tokens, index)
    ensures r.Ok? && r.value >= 0 ==>
      EndifTarget(tokens, index, r.value) && NoEndifTargetBefore(tokens, index, r.value)
    ensures r == Ok(-1) ==> NoEndifTargetBefore(tokens, index, |tokens|)
  {
    var openIfs := 0;
    var k := index;
    while k < |tokens|
      invariant NextEndifFrom(tokens, k, openIfs) == NextEndif(tokens, index)
      decreases |tokens| - k
    {
      var token := tokens[k];
      var isIf :- IsStmt(token, Some("if"));
      if isIf {
        openIfs := openIfs + 1;
      } else {
        // The token has a second word now, so the remaining `is_stmt` calls cannot fail.
        if IsMarker(token, "endif") {
          openIfs := openIfs - 1;
          if openIfs == 0 {
            k := k + 1;
            continue;
          }
        }
      }
      if openIfs <= 0 {
        if IsMarker(token, "endif") {
          NextEndifMeaning(tokens, index);
          return Ok(k);
        }
      }
      k := k + 1;
    }
    NextEndifMeaning(tokens, index);
    return Ok(-1);
  }

  /** What `find_next_else(tokens, i)` computes, stated without the scan: the first `else`
      at which the `if`s counted from `i` do not outnumber the `endif`s; -1 when there is
      none; an error exactly when a token that makes `is_stmt` fail comes first. */
  lemma NextElseMeaning(tokens: seq<string>, i: nat)
    ensures var r := NextElse(tokens, i);
      && (r.Ok? && r.value >= 0 ==>
            ElseTarget(tokens, i, r.value) && NoElseTargetBefore(tokens, i, r.value)
            && Clean(tokens, i, r.value))
      && (r == Ok(-1) ==>
            NoElseTargetBefore(tokens, i, |tokens|) && (i <= |tokens| ==> Clean(tokens, i, |tokens|)))
      && (r.Err? ==>
            exists k :: i <= k < |tokens| && Faulty(tokens[k]) && NoElseTargetBefore(tokens, i, k))
  {
    if i <= |tokens| {
      NextElseFromMeaning(tokens, i, i, 0);
    }
  }

  lemma {:induction false} NextElseFromMeaning(tokens: seq<string>, i: nat, k: nat, open: int)
    requires i <= k <= |tokens|
    requires open == Depth(tokens, i, k)
    requires NoElseTargetBefore(tokens, i, k) && Clean(tokens, i, k)
    ensures var r := NextElseFrom(tokens, k, open);
      && (r.Ok? && r.value >= 0 ==>
            ElseTarget(tokens, i, r.value) && NoElseTargetBefore(tokens, i, r.value)
            && Clean(tokens, i, r.value))
      && (r == Ok(-1) ==> NoElseTargetBefore(tokens, i, |tokens|) && Clean(tokens, i, |tokens|))
      && (r.Err? ==>
            exists m :: i <= m < |tokens| && Faulty(tokens[m]) && NoElseTargetBefore(tokens, i, m))
    decreases |tokens| - k
  {
    if k < |tokens| {
      var token := tokens[k];
      if Faulty(token) {
        assert NextElseFrom(tokens, k, open).Err?;
      } else {
        assert Depth(tokens, i, k + 1) == open + Delta(token);
        if IsMarker(token, "else") && open + Delta(token) <= 0 {
          assert ElseTarget(tokens, i, k);
        } else {
          NextElseFromMeaning(tokens, i, k + 1, open + Delta(token));
        }
      }
    }
  }

  /** What `find_next_endif(tokens, i)` computes, stated without the scan: the first `endif`
      at which, counted from `i`, the `endif`s outnumber the `if`s by one, so that every
      `endif` of an `if` opened after `i` is passed over; -1 when there is none; an error
      exactly when a token that makes `is_stmt` fail comes first. */
  lemma NextEndifMeaning(tokens: seq<string>, i: nat)
    ensures var r := NextEndif(tokens, i);
      && (r.Ok? && r.value >= 0 ==>
            EndifTarget(tokens, i, r.value) && NoEndifTargetBefore(tokens, i, r.value)
            && Clean(tokens, i, r.value))
      && (r == Ok(-1) ==>
            NoEndifTargetBefore(tokens, i, |tokens|) && (i <= |tokens| ==> Clean(tokens, i, |tokens|)))
      && (r.Err? ==>
            exists k :: i <= k < |tokens| && Faulty(tokens[k]) && NoEndifTargetBefore(tokens, i, k))
  {
    if i <= |tokens| {
      NextEndifFromMeaning(tokens, i, i, 0);
    }
  }

  lemma {:induction false} NextEndifFromMeaning(tokens: seq<string>, i: nat, k: nat, open: int)
    requires i <= k <= |tokens|
    requires open == Depth(tokens, i, k) && open >= 0
    requires NoEndifTargetBefore(tokens, i, k) && Clean(tokens, i, k)
    ensures var r := NextEndifFrom(tokens, k, open);
      && (r.Ok? && r.value >= 0 ==>
            EndifTarget(tokens, i, r.value) && NoEndifTargetBefore(tokens, i, r.value)
            && Clean(tokens, i, r.value))
      && (r == Ok(-1) ==> NoEndifTargetBefore(tokens, i, |tokens|) && Clean(tokens, i, |tokens|))
      && (r.Err? ==>
            exists m :: i <= m < |tokens| && Faulty(tokens[m]) && NoEndifTargetBefore(tokens, i, m))
    decreases |tokens| - k
  {
    if k < |tokens| {
      var token := tokens[k];
      if Faulty(token) {
        assert NextEndifFrom(tokens, k, open).Err?;
      } else {
        assert Depth(tokens, i, k + 1) == open + Delta(token);
        if IsMarker(token, "endif") && open == 0 {
          assert EndifTarget(tokens, i, k);
        } else {
          NextEndifFromMeaning(tokens, i, k + 1, open + Delta(token));
        }
      }
    }
  }

  /** A token that every scan steps over without failing and without counting it. */
  predicate Neutral(token: string) {
    !Faulty(token) && !IsMarker(token, "if") && !IsMarker(token, "else") && !IsMarker(token, "endif")
  }

  lemma KeywordsAreLower()
    ensures Lower("if") == "if" && Lower("else") == "else" && Lower("endif") == "endif"
  {
    LowerOfLower("if");
    LowerOfLower("else");
    LowerOfLower("endif");
  }

  /** `is_stmt` on a statement token whose words are known. */
  lemma TypeWord(token: string, ws: seq<string>, ty: string)
    requires StartsStmt(token) && Words(token) == ws && |ws| >= 2
    ensures IsStmt(token, Some(ty)) == Ok(Lower(ws[1]) == Lower(ty))
  {
  }

  lemma ElseMarkerWords()
    ensures Words(ElseMarker) == ["{%", "else", "%}"]
  {
    var ws := ["{%", "else", "%}"];
    assert AllWords(ws);
    assert Join(ws) == ElseMarker;
    WordsOfJoin(ws);
  }

  lemma EndifMarkerWords()
    ensures Words(EndifMarker) == ["{%", "endif", "%}"]
  {
    var ws := ["{%", "endif", "%}"];
    assert AllWords(ws);
    assert Join(ws) == EndifMarker;
    WordsOfJoin(ws);
  }

  lemma EndforMarkerWords()
    ensures Words(EndforMarker) == ["{%", "endfor", "%}"]
  {
    var ws := ["{%", "endfor", "%}"];
    assert AllWords(ws);
    assert Join(ws) == EndforMarker;
    WordsOfJoin(ws);
  }

  /** The exact `else` marker is an `else` to every scan, and neither an `if` nor an `endif`. */
  lemma ElseMarkerIsElse(token: string)
    requires token == ElseMarker
    ensures IsMarker(token, "else") && !IsMarker(token, "if")
    ensures !IsMarker(token, "endif") && !Faulty(token)
  {
    ElseMarkerWords();
    KeywordsAreLower();
    TypeWord(ElseMarker, ["{%", "else", "%}"], "else");
    TypeWord(ElseMarker, ["{%", "else", "%}"], "if");
    TypeWord(ElseMarker, ["{%", "else", "%}"], "endif");
  }

  /** The exact `endif` marker is an `endif` to every scan, and neither an `if` nor an `else`. */
  lemma EndifMarkerIsEndif(token: string)
    requires token == EndifMarker
    ensures IsMarker(token, "endif") && !IsMarker(token, "if")
    ensures !IsMarker(token, "else") && !Faulty(token)
  {
    EndifMarkerWords();
    KeywordsAreLower();
    TypeWord(EndifMarker, ["{%", "endif", "%}"], "endif");
    TypeWord(EndifMarker, ["{%", "endif", "%}"], "if");
    TypeWord(EndifMarker, ["{%", "endif", "%}"], "else");
  }

  /** The exact `endfor` marker is invisible to the `else` and `endif` scans. */
  lemma EndforMarkerIsNeutral(token: string)
    requires token == EndforMarker
    ensures Neutral(token)
  {
    EndforMarkerWords();
    KeywordsAreLower();
    LowerOfLower("endfor");
    TypeWord(EndforMarker, ["{%", "endfor", "%}"], "endif");
    TypeWord(EndforMarker, ["{%", "endfor", "%}"], "if");
    TypeWord(EndforMarker, ["{%", "endfor", "%}"], "else");
  }

  /** A token that the scans count as an `if` is counted as nothing else. */
  lemma IfMarkerIsOnlyIf(token: string)
    requires IsMarker(token, "if")
    ensures !IsMarker(token, "else") && !IsMarker(token, "endif") && !Faulty(token)
    ensures Delta(token) == 1
  {
    KeywordsAreLower();
  }

  /** What a token is to the scans. */
  datatype Kind = IfKind | ElseKind | EndifKind | OtherKind | FaultyKind

  function KindOf(token: string): (k: Kind)
    ensures k == FaultyKind <==> Faulty(token)
    ensures k == IfKind <==> IsMarker(token, "if")
  {
    if Faulty(token) then FaultyKind
    else if IsMarker(token, "if") then IfKind
    else if IsMarker(token, "endif") then EndifKind
    else if IsMarker(token, "else") then ElseKind
    else OtherKind
  }

  function Kinds(tokens: seq<string>): (ks: seq<Kind>)
    ensures |ks| == |tokens|
  {
    seq(|tokens|, i requires 0 <= i < |tokens| => KindOf(tokens[i]))
  }

  /** Where a scan over kinds stops: at a position (or -1), or at a token that makes
      `is_stmt` fail. */
  datatype Stop = Found(index: int) | FailedAt(position: nat)

  /** The `else` scan read over token kinds. */
  function ElseScan(ks: seq<Kind>, k: nat, open: int): Stop
    decreases |ks| - k
  {
    if k >= |ks| then Found(-1)
    else match ks[k]
      case FaultyKind => FailedAt(k)
      case IfKind => ElseScan(ks, k + 1, open + 1)
      case EndifKind => ElseScan(ks, k + 1, open - 1)
      case ElseKind => if open <= 0 then Found(k) else ElseScan(ks, k + 1, open)
      case OtherKind => ElseScan(ks, k + 1, open)
  }

  /** The `endif` scan read over token kinds. */
  function EndifScan(ks: seq<Kind>, k: nat, open: int): Stop
    decreases |ks| - k
  {
    if k >= |ks| then Found(-1)
    else match ks[k]
      case FaultyKind => FailedAt(k)
      case IfKind => EndifScan(ks, k + 1, open + 1)
      case EndifKind =>
        if open == 1 then EndifScan(ks, k + 1, 0)
        else if open <= 0 then Found(k)
        else EndifScan(ks, k + 1, open - 1)
      case _ => EndifScan(ks, k + 1, open)
  }

  /** A stop over kinds, as the scan over tokens reports it. */
  function Reported(tokens: seq<string>, s: Stop): Result<int> {
    match s
    case Found(j) => Ok(j)
    case FailedAt(p) => if p < |tokens| then Err(MissingTypeWord(tokens[p])) else Ok(-1)
  }

  /** The `else` scan over tokens depends on the tokens only through their kinds. */
  lemma {:induction false} ElseScanOfKinds(tokens: seq<string>, k: nat, open: int)
    ensures NextElseFrom(tokens, k, open) == Reported(tokens, ElseScan(Kinds(tokens), k, open))
    decreases |tokens| - k
  {
    if k < |tokens| {
      var token := tokens[k];
      assert Kinds(tokens)[k] == KindOf(token);
      if !Faulty(token) {
        if IsMarker(token, "if") {
          IfMarkerIsOnlyIf(token);
        }
        ElseScanOfKinds(tokens, k + 1, open + Delta(token));
      }
    }
  }

  /** The `endif` scan over tokens depends on the tokens only through their kinds. */
  lemma {:induction false} EndifScanOfKinds(tokens: seq<string>, k: nat, open: int)
    ensures NextEndifFrom(tokens, k, open) == Reported(tokens, EndifScan(Kinds(tokens), k, open))
    decreases |tokens| - k
  {
    if k < |tokens| {
      var token := tokens[k];
      assert Kinds(tokens)[k] == KindOf(token);
      if !Faulty(token) {
        if IsMarker(token, "if") {
          IfMarkerIsOnlyIf(token);
          EndifScanOfKinds(tokens, k + 1, open + 1);
        } else if IsMarker(token, "endif") && open == 1 {
          EndifScanOfKinds(tokens, k + 1, 0);
        } else {
          EndifScanOfKinds(tokens, k + 1, open + Delta(token));
        }
      }
    }
  }
}
