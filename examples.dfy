/** The examples in the source's documentation strings, stated as lemmas about the model. The
    doctests fix concrete inputs; each lemma here states what the model yields for one of
    them. Facts about single literal tokens come from small lemmas, and the facts about a
    list of tokens come from a lemma over abstract tokens that have those facts. */
module Examples {
  import opened Results
  import opened Text
  import opened Markers
  import opened Lexer
  import opened Parser
  import opened Nesting

  // ---------------------------------------------------------------------------------------
  // Words of markers

  /** The words of a statement token: `{%`, a space, word `w`, then `tail`. */
  lemma SecondWord(token: string, w: string, tail: string)
    requires token == "{%" + (" " + (w + tail))
    requires IsWord(w) && (tail == [] || IsSpace(tail[0]))
    ensures StartsStmt(token) && Words(token) == ["{%", w] + Words(tail)
  {
    var rest := " " + (w + tail);
    assert Words(rest) == [w] + Words(tail) by {
      WordsOfWordThen(w, tail);
      WordsAfterSpace(w + tail);
    }
    assert Words(token) == ["{%"] + Words(rest) by {
      WordsOfWordThen("{%", rest);
    }
    assert ["{%"] + ([w] + Words(tail)) == ["{%", w] + Words(tail);
  }

  /** The same with two spaces before `w`. */
  lemma WideSecondWord(token: string, w: string, tail: string)
    requires token == "{%" + (" " + (" " + (w + tail)))
    requires IsWord(w) && (tail == [] || IsSpace(tail[0]))
    ensures StartsStmt(token) && Words(token) == ["{%", w] + Words(tail)
  {
    var rest := " " + (" " + (w + tail));
    assert Words(rest) == [w] + Words(tail) by {
      WordsOfWordThen(w, tail);
      WordsAfterSpace(w + tail);
      WordsAfterSpace(" " + (w + tail));
    }
    assert Words(token) == ["{%"] + Words(rest) by {
      WordsOfWordThen("{%", rest);
    }
    assert ["{%"] + ([w] + Words(tail)) == ["{%", w] + Words(tail);
  }

  /** The words inside a marker that puts one space on each side of its words. */
  lemma PaddedWords(token: string, open: string, ws: seq<string>, close: string)
    requires |open| == 2 && |close| == 2 && AllWords(ws)
    requires token == open + (" " + Join(ws) + " ") + close
    ensures Words(Strip(token)) == ws
  {
    var inner := " " + Join(ws) + " ";
    assert Strip(token) == inner by {
      assert token[2..|token| - 2] == inner;
    }
    WordsOfPadded(ws);
  }

  /** The words inside a marker that puts no space around its words. */
  lemma TightWords(token: string, open: string, ws: seq<string>, close: string)
    requires |open| == 2 && |close| == 2 && AllWords(ws)
    requires token == open + Join(ws) + close
    ensures Words(Strip(token)) == ws
  {
    assert Strip(token) == Join(ws) by {
      assert token[2..|token| - 2] == Join(ws);
    }
    WordsOfJoin(ws);
  }

  /** A statement marker written `{% w1 w2 ... %}` with single spaces: its words inside, and
      the second word of the whole token, which is the one `is_stmt` reads. */
  lemma StmtMarkerWords(token: string, ws: seq<string>)
    requires AllWords(ws) && |ws| > 0
    requires token == "{%" + (" " + Join(ws) + " ") + "%}"
    ensures StartsStmt(token) && Words(Strip(token)) == ws
    ensures |Words(token)| >= 2 && Words(token)[1] == ws[0]
  {
    var inner := " " + Join(ws) + " ";
    PaddedWords(token, "{%", ws, "%}");
    PaddedThen(ws, "%}");
    assert Words(token) == ["{%"] + (ws + ["%}"]) by {
      assert token == "{%" + (inner + "%}");
      WordsOfWordThen("{%", inner + "%}");
    }
  }

  /** The words of padded words followed by one more word. */
  lemma PaddedThen(ws: seq<string>, w: string)
    requires AllWords(ws) && |ws| > 0 && IsWord(w)
    ensures Words(" " + Join(ws) + " " + w) == ws + [w]
  {
    var tail := " " + w;
    var t := Join(ws) + tail;
    AppendAssoc(" " + Join(ws), " ", w);
    AppendAssoc(" ", Join(ws), tail);
    WordsAfterSpace(t);
    SpaceThenWord(w);
    WordsOfJoinThen(ws, tail);
  }

  lemma SpaceThenWord(w: string)
    requires IsWord(w)
    ensures IsSpace((" " + w)[0]) && Words(" " + w) == [w]
  {
    WordsAfterSpace(w);
    OneWord(w);
  }

  /** A word alone is its only word. */
  lemma OneWord(w: string)
    requires IsWord(w)
    ensures Words(w) == [w]
  {
    assert Join([w]) == w;
    WordsOfJoin([w]);
  }

  /** What a statement token is to the scans, read off its second word. */
  lemma KindByWord(token: string, w: string)
    requires StartsStmt(token) && |Words(token)| >= 2 && Words(token)[1] == w
    ensures Lower(w) == "if" ==> KindOf(token) == IfKind
    ensures Lower(w) == "else" ==> KindOf(token) == ElseKind
    ensures Lower(w) == "endif" ==> KindOf(token) == EndifKind
    ensures Lower(w) !in {"if", "else", "endif"} ==> KindOf(token) == OtherKind
  {
    KeywordsAreLower();
    TypeWord(token, Words(token), "if");
    TypeWord(token, Words(token), "else");
    TypeWord(token, Words(token), "endif");
  }

  /** A token that is nothing to the scans is also nothing to the nesting grammar. */
  lemma OtherIsNeutral(token: string)
    requires KindOf(token) == OtherKind
    ensures Neutral(token)
  {
  }

  // ---------------------------------------------------------------------------------------
  // The literal markers of the examples

  lemma MarkerIf18()
    ensures StartsStmt("{% if age >= 18 %}") && KindOf("{% if age >= 18 %}") == IfKind
    ensures Words(Strip("{% if age >= 18 %}")) == ["if", "age", ">=", "18"]
  {
    var ws := ["if", "age", ">=", "18"];
    assert AllWords(ws);
    StmtMarkerWords("{% if age >= 18 %}", ws);
    KeywordsAreLower();
    KindByWord("{% if age >= 18 %}", "if");
  }

  lemma MarkerIf65()
    ensures StartsStmt("{% if age >= 65 %}") && KindOf("{% if age >= 65 %}") == IfKind
    ensures Words(Strip("{% if age >= 65 %}")) == ["if", "age", ">=", "65"]
  {
    var ws := ["if", "age", ">=", "65"];
    assert AllWords(ws);
    StmtMarkerWords("{% if age >= 65 %}", ws);
    KeywordsAreLower();
    KindByWord("{% if age >= 65 %}", "if");
  }

  lemma MarkerIf21()
    ensures KindOf("{% if age >= 21 %}") == IfKind
  {
    KeywordsAreLower();
    SecondWord("{% if age >= 21 %}", "if", " age >= 21 %}");
    KindByWord("{% if age >= 21 %}", "if");
  }

  /** Two spaces after `{%` still leave `if` as the second word. */
  lemma MarkerIfMoon()
    ensures KindOf("{%  if moon == \"full\" %}") == IfKind
  {
    KeywordsAreLower();
    WideSecondWord("{%  if moon == \"full\" %}", "if", " moon == \"full\" %}");
    KindByWord("{%  if moon == \"full\" %}", "if");
  }

  lemma MarkerElse()
    ensures KindOf("{% else %}") == ElseKind
  {
    KeywordsAreLower();
    SecondWord("{% else %}", "else", " %}");
    KindByWord("{% else %}", "else");
  }

  /** Two spaces before `%}` still leave `else` as the second word. */
  lemma MarkerElseWide()
    ensures KindOf("{% else  %}") == ElseKind
  {
    KeywordsAreLower();
    SecondWord("{% else  %}", "else", "  %}");
    KindByWord("{% else  %}", "else");
  }

  /** Without a space before `%}` the second word is `else%}`, which is no `else`. */
  lemma MarkerElseGlued()
    ensures KindOf("{% else%}") == OtherKind
  {
    KeywordsAreLower();
    SecondWord("{% else%}", "else%}", "");
    KindByWord("{% else%}", "else%}");
  }

  lemma MarkerEndif()
    ensures KindOf("{% endif %}") == EndifKind
  {
    KeywordsAreLower();
    SecondWord("{% endif %}", "endif", " %}");
    KindByWord("{% endif %}", "endif");
  }

  // ---------------------------------------------------------------------------------------
  // `is_stmt`

  /** The two examples of `is_stmt`: a statement of the named type, and an expression
      opening that is no statement at all. */
  lemma IsStmtExamples()
    ensures IsStmt("{% if %}", Some("if")) == Ok(true)
    ensures IsStmt("{{ if %}", Some("if")) == Ok(false)
  {
    var ws := ["{%", "if", "%}"];
    assert AllWords(ws) && Join(ws) == "{% if %}";
    WordsOfJoin(ws);
    KeywordsAreLower();
    TypeWord("{% if %}", ws, "if");
  }

  // ---------------------------------------------------------------------------------------
  // `find_next_else` and `find_next_endif`

  lemma SimpleKindScans()
    ensures ElseScan([IfKind, OtherKind, ElseKind, EndifKind], 1, 0) == Found(2)
    ensures EndifScan([IfKind, OtherKind, ElseKind, EndifKind], 1, 0) == Found(3)
  {
  }

  lemma SimpleScansOf(t0: string, t1: string, t2: string, t3: string)
    requires KindOf(t0) == IfKind && KindOf(t1) == OtherKind
    requires KindOf(t2) == ElseKind && KindOf(t3) == EndifKind
    ensures NextElse([t0, t1, t2, t3], 1) == Ok(2) && NextEndif([t0, t1, t2, t3], 1) == Ok(3)
  {
    var l := [t0, t1, t2, t3];
    assert Kinds(l) == [IfKind, OtherKind, ElseKind, EndifKind];
    SimpleKindScans();
    ElseScanOfKinds(l, 1, 0);
    EndifScanOfKinds(l, 1, 0);
  }

  /** "The straightforward case": the `else` and the `endif` right after an `if`. */
  lemma SimpleScans(l: seq<string>)
    requires l == ["{% if age >= 18 %}", "adult", "{% else %}", "{% endif %}"]
    ensures NextElse(l, 1) == Ok(2) && NextEndif(l, 1) == Ok(3)
  {
    MarkerIf18(); MarkerElse(); MarkerEndif();
    SimpleScansOf("{% if age >= 18 %}", "adult", "{% else %}", "{% endif %}");
  }

  lemma NestedKindScans()
    ensures ElseScan([IfKind, IfKind, OtherKind, ElseKind, EndifKind, ElseKind, EndifKind], 1, 0) == Found(5)
    ensures EndifScan([IfKind, IfKind, OtherKind, ElseKind, EndifKind, ElseKind, EndifKind], 1, 0) == Found(6)
  {
  }

  lemma NestedScansOf(t0: string, t1: string, t2: string, t3: string, t4: string, t5: string, t6: string)
    requires KindOf(t0) == IfKind && KindOf(t1) == IfKind && KindOf(t2) == OtherKind
    requires KindOf(t3) == ElseKind && KindOf(t4) == EndifKind
    requires KindOf(t5) == ElseKind && KindOf(t6) == EndifKind
    ensures NextElse([t0, t1, t2, t3, t4, t5, t6], 1) == Ok(5)
    ensures NextEndif([t0, t1, t2, t3, t4, t5, t6], 1) == Ok(6)
  {
    var l := [t0, t1, t2, t3, t4, t5, t6];
    assert Kinds(l) == [IfKind, IfKind, OtherKind, ElseKind, EndifKind, ElseKind, EndifKind];
    NestedKindScans();
    ElseScanOfKinds(l, 1, 0);
    EndifScanOfKinds(l, 1, 0);
  }

  /** An `if` inside the consequence: its `else` and `endif` are skipped. */
  lemma NestedScans(l: seq<string>)
    requires l == ["{% if age >= 18 %}", "{% if age >= 65 %}", "senior", "{% else %}", "{% endif %}",
                   "{% else %}", "{% endif %}"]
    ensures NextElse(l, 1) == Ok(5) && NextEndif(l, 1) == Ok(6)
  {
    MarkerIf18(); MarkerIf65(); MarkerElse(); MarkerEndif();
    NestedScansOf("{% if age >= 18 %}", "{% if age >= 65 %}", "senior", "{% else %}", "{% endif %}",
                  "{% else %}", "{% endif %}");
  }

  lemma LongElseKindScan()
    ensures ElseScan([IfKind, IfKind, OtherKind, ElseKind, EndifKind, IfKind, OtherKind, ElseKind, EndifKind,
                      ElseKind, IfKind, OtherKind, OtherKind, EndifKind, EndifKind], 1, 0) == Found(9)
  {
  }

  lemma LongElseScanOf(t0: string, t1: string, t2: string, t3: string, t4: string, t5: string,
                       t6: string, t7: string, t8: string, t9: string, t10: string, t11: string,
                       t12: string, t13: string, t14: string)
    requires KindOf(t0) == IfKind && KindOf(t1) == IfKind && KindOf(t2) == OtherKind
    requires KindOf(t3) == ElseKind && KindOf(t4) == EndifKind && KindOf(t5) == IfKind
    requires KindOf(t6) == OtherKind && KindOf(t7) == ElseKind && KindOf(t8) == EndifKind
    requires KindOf(t9) == ElseKind && KindOf(t10) == IfKind && KindOf(t11) == OtherKind
    requires KindOf(t12) == OtherKind && KindOf(t13) == EndifKind && KindOf(t14) == EndifKind
    ensures NextElse([t0, t1, t2, t3, t4, t5, t6, t7, t8, t9, t10, t11, t12, t13, t14], 1) == Ok(9)
  {
    var l := [t0, t1, t2, t3, t4, t5, t6, t7, t8, t9, t10, t11, t12, t13, t14];
    assert Kinds(l) == [IfKind, IfKind, OtherKind, ElseKind, EndifKind, IfKind, OtherKind, ElseKind, EndifKind,
                        ElseKind, IfKind, OtherKind, OtherKind, EndifKind, EndifKind];
    LongElseKindScan();
    ElseScanOfKinds(l, 1, 0);
  }

  /** Two complete `if` blocks are skipped; the `else` with two spaces is the one found, and
      the `else%}` of the last block is not an `else` at all. */
  lemma LongElseScan(l: seq<string>)
    requires l == ["{% if age >= 18 %}", "{% if age >= 65 %}", "senior", "{% else %}", "{% endif %}",
                   "{% if age >= 21 %}", "can drink", "{% else %}", "{% endif %}",
                   "{% else  %}", "{%  if moon == \"full\" %}", "yup, full", "{% else%}", "{% endif %}", "{% endif %}"]
    ensures NextElse(l, 1) == Ok(9)
  {
    MarkerIf18(); MarkerIf65(); MarkerIf21(); MarkerIfMoon();
    MarkerElse(); MarkerElseWide(); MarkerElseGlued(); MarkerEndif();
    LongElseScanOf("{% if age >= 18 %}", "{% if age >= 65 %}", "senior", "{% else %}", "{% endif %}",
                   "{% if age >= 21 %}", "can drink", "{% else %}", "{% endif %}",
                   "{% else  %}", "{%  if moon == \"full\" %}", "yup, full", "{% else%}", "{% endif %}", "{% endif %}");
  }

  lemma LongEndifKindScan()
    ensures EndifScan([IfKind, IfKind, OtherKind, ElseKind, EndifKind, IfKind, OtherKind, ElseKind, EndifKind,
                       ElseKind, EndifKind], 1, 0) == Found(10)
  {
  }

  lemma LongEndifScanOf(t0: string, t1: string, t2: string, t3: string, t4: string, t5: string,
                        t6: string, t7: string, t8: string, t9: string, t10: string)
    requires KindOf(t0) == IfKind && KindOf(t1) == IfKind && KindOf(t2) == OtherKind
    requires KindOf(t3) == ElseKind && KindOf(t4) == EndifKind && KindOf(t5) == IfKind
    requires KindOf(t6) == OtherKind && KindOf(t7) == ElseKind && KindOf(t8) == EndifKind
    requires KindOf(t9) == ElseKind && KindOf(t10) == EndifKind
    ensures NextEndif([t0, t1, t2, t3, t4, t5, t6, t7, t8, t9, t10], 1) == Ok(10)
  {
    var l := [t0, t1, t2, t3, t4, t5, t6, t7, t8, t9, t10];
    assert Kinds(l) == [IfKind, IfKind, OtherKind, ElseKind, EndifKind, IfKind, OtherKind, ElseKind, EndifKind,
                        ElseKind, EndifKind];
    LongEndifKindScan();
    EndifScanOfKinds(l, 1, 0);
  }

  /** Two complete `if` blocks are skipped before the `endif` that closes the first `if`. */
  lemma LongEndifScan(l: seq<string>)
    requires l == ["{% if age >= 18 %}", "{% if age >= 65 %}", "senior", "{% else %}", "{% endif %}",
                   "{% if age >= 21 %}", "can drink", "{% else %}", "{% endif %}",
                   "{% else %}", "{% endif %}"]
    ensures NextEndif(l, 1) == Ok(10)
  {
    MarkerIf18(); MarkerIf65(); MarkerIf21(); MarkerElse(); MarkerEndif();
    LongEndifScanOf("{% if age >= 18 %}", "{% if age >= 65 %}", "senior", "{% else %}", "{% endif %}",
                    "{% if age >= 21 %}", "can drink", "{% else %}", "{% endif %}",
                    "{% else %}", "{% endif %}");
  }

  /** A statement token of one word stops both scans with the error of `split()[1]`. */
  lemma FaultyScans(l: seq<string>)
    requires l == ["{% if age >= 18 %}", "{%x%}"]
    ensures NextElse(l, 1) == Err(MissingTypeWord("{%x%}"))
    ensures NextEndif(l, 1) == Err(MissingTypeWord("{%x%}"))
  {
    MarkerIf18();
    OneWordIsFaulty("{%x%}");
    FaultyScansOf("{% if age >= 18 %}", "{%x%}");
  }

  /** A statement token with no whitespace in it has no second word. */
  lemma OneWordIsFaulty(token: string)
    requires token == "{%x%}"
    ensures KindOf(token) == FaultyKind
  {
    assert token[2] == 'x' && token[3] == '%' && token[4] == '}';
    FaultyWord(token);
  }

  lemma FaultyWord(token: string)
    requires StartsStmt(token) && IsWord(token)
    ensures KindOf(token) == FaultyKind
  {
    OneWord(token);
  }

  lemma FaultyScansOf(t0: string, t1: string)
    requires KindOf(t0) == IfKind && KindOf(t1) == FaultyKind
    ensures NextElse([t0, t1], 1) == Err(MissingTypeWord(t1))
    ensures NextEndif([t0, t1], 1) == Err(MissingTypeWord(t1))
  {
    var l := [t0, t1];
    assert Kinds(l) == [IfKind, FaultyKind];
    ElseScanOfKinds(l, 1, 0);
    EndifScanOfKinds(l, 1, 0);
  }

  // ---------------------------------------------------------------------------------------
  // `tokenize`

  /** A closer at the very end is found when nothing before it can close or break the line. */
  lemma {:induction false} CloseAtEnd(t: string, q: nat, c1: char, c2: char)
    requires q + 2 <= |t| && t[|t| - 2] == c1 && t[|t| - 1] == c2
    requires forall k :: q <= k < |t| - 2 ==> t[k] != '\n' && t[k] != c1
    ensures CloseFrom(t, q, c1, c2) == Some(|t|)
    decreases |t| - q
  {
    if q + 2 < |t| {
      CloseAtEnd(t, q + 1, c1, c2);
    }
  }

  /** A tag: an opener, a body without line feeds or the closer's first character, a closer. */
  lemma TagByBody(s: string)
    requires |s| >= 4 && s[0] == '{' && s[1] in "{%" && s[|s| - 1] == '}'
    requires s[|s| - 2] == (if s[1] == '{' then '}' else '%')
    requires forall k :: 2 <= k < |s| - 2 ==> s[k] != '\n' && s[k] != s[|s| - 2]
    ensures IsTag(s)
  {
    CloseAtEnd(s, 2, s[|s| - 2], '}');
  }

  /** `DropEmpty` keeps the order of pieces. */
  lemma {:induction false} DropEmptyAppend(a: seq<string>, b: seq<string>)
    ensures DropEmpty(a + b) == DropEmpty(a) + DropEmpty(b)
  {
    if |a| == 0 {
      assert a + b == b;
    } else {
      assert (a + b)[0] == a[0];
      assert (a + b)[1..] == a[1..] + b;
      DropEmptyAppend(a[1..], b);
    }
  }

  /** What `DropEmpty` keeps of one piece. */
  function Kept(piece: string): (r: seq<string>)
    ensures r == DropEmpty([piece])
  {
    if piece == "" then [] else [piece]
  }

  lemma ConcatPair(a: string, b: string)
    ensures Concat([a, b]) == a + b
  {
    assert [a, b][1..] == [b];
    assert [b][1..] == [];
    assert Concat([b]) == b + "";
    assert b + "" == b;
  }

  lemma DropEmptyPair(tag: string, text: string)
    requires tag != ""
    ensures DropEmpty([tag, text]) == [tag] + Kept(text)
  {
    assert [tag, text][1..] == [text];
  }

  /** The first text of a template. */
  lemma TokenizeFirst(text: string)
    requires BraceFree(text)
    ensures Composable([text]) && Concat([text]) == text && DropEmpty([text]) == Kept(text)
  {
  }

  /** A tag and a text after pieces that compose. */
  lemma TokenizeSnoc(pieces: seq<string>, tag: string, text: string)
    requires Composable(pieces) && IsTag(tag) && BraceFree(text)
    ensures Composable(pieces + [tag, text])
    ensures Concat(pieces + [tag, text]) == Concat(pieces) + tag + text
    ensures DropEmpty(pieces + [tag, text]) == DropEmpty(pieces) + [tag] + Kept(text)
  {
    ComposableSnoc(pieces, tag, text);
    ConcatAppend(pieces, [tag, text]);
    ConcatPair(tag, text);
    DropEmptyAppend(pieces, [tag, text]);
    DropEmptyPair(tag, text);
  }

  lemma ComposableSnoc(pieces: seq<string>, tag: string, text: string)
    requires Composable(pieces) && IsTag(tag) && BraceFree(text)
    ensures Composable(pieces + [tag, text])
  {
    var p := pieces + [tag, text];
    var n := |pieces|;
    assert n % 2 == 1;
    assert forall k :: 0 <= k < |p| && k % 2 == 0 ==> BraceFree(p[k]) by {
      forall k | 0 <= k < |p| && k % 2 == 0 ensures BraceFree(p[k]) {
        if k < n { assert p[k] == pieces[k]; } else { assert k != n; assert k == n + 1; }
      }
    }
    assert forall k :: 0 <= k < |p| && k % 2 == 1 ==> IsTag(p[k]) by {
      forall k | 0 <= k < |p| && k % 2 == 1 ensures IsTag(p[k]) {
        if k < n { assert p[k] == pieces[k]; } else { assert k != n + 1; assert k == n; }
      }
    }
  }

  /** A template of a text, a tag and a text, any of the texts possibly empty. */
  lemma TokenizeThree(a: string, t1: string, b: string)
    requires BraceFree(a) && IsTag(t1) && BraceFree(b)
    ensures Tokenize(a + t1 + b) == Kept(a) + [t1] + Kept(b)
  {
    TokenizeFirst(a);
    TokenizeSnoc([a], t1, b);
    TokenizeOfPieces([a] + [t1, b]);
  }

  /** One tag with text on both sides. */
  lemma TokenizeTextTag(a: string, t1: string, b: string)
    requires BraceFree(a) && IsTag(t1) && BraceFree(b) && a != "" && b != ""
    ensures Tokenize(a + t1 + b) == [a, t1, b]
  {
    TokenizeThree(a, t1, b);
    assert [a] + [t1] + [b] == [a, t1, b];
  }

  /** A template of four texts with three tags between them. */
  lemma TokenizeSeven(a: string, t1: string, b: string, t2: string, c: string, t3: string, d: string)
    requires BraceFree(a) && BraceFree(b) && BraceFree(c) && BraceFree(d)
    requires IsTag(t1) && IsTag(t2) && IsTag(t3)
    ensures Tokenize(a + t1 + b + t2 + c + t3 + d)
         == Kept(a) + [t1] + Kept(b) + [t2] + Kept(c) + [t3] + Kept(d)
  {
    var p0 := [a];
    TokenizeFirst(a);
    var p1 := p0 + [t1, b];
    TokenizeSnoc(p0, t1, b);
    var p2 := p1 + [t2, c];
    TokenizeSnoc(p1, t2, c);
    var p3 := p2 + [t3, d];
    TokenizeSnoc(p2, t3, d);
    TokenizeOfPieces(p3);
  }

  /** Three tags with text around and between them. */
  lemma TokenizeTextTags(a: string, t1: string, b: string, t2: string, c: string, t3: string, d: string)
    requires BraceFree(a) && BraceFree(b) && BraceFree(c) && BraceFree(d)
    requires IsTag(t1) && IsTag(t2) && IsTag(t3)
    requires a != "" && b != "" && c != "" && d != ""
    ensures Tokenize(a + t1 + b + t2 + c + t3 + d) == [a, t1, b, t2, c, t3, d]
  {
    TokenizeSeven(a, t1, b, t2, c, t3, d);
    SevenOfSeven(a, t1, b, t2, c, t3, d);
  }

  lemma SevenOfSeven<T>(a: T, t1: T, b: T, t2: T, c: T, t3: T, d: T)
    ensures [a] + [t1] + [b] + [t2] + [c] + [t3] + [d] == [a, t1, b, t2, c, t3, d]
  {
  }

  /** Three tags whose second and third are adjacent. */
  lemma TokenizeTextTagTag(a: string, t1: string, b: string, t2: string, t3: string, d: string)
    requires BraceFree(a) && BraceFree(b) && BraceFree(d)
    requires IsTag(t1) && IsTag(t2) && IsTag(t3)
    requires a != "" && b != "" && d != ""
    ensures Tokenize(a + t1 + b + t2 + t3 + d) == [a, t1, b, t2, t3, d]
  {
    var x := a + t1 + b + t2;
    assert x + "" == x;
    TokenizeSeven(a, t1, b, t2, "", t3, d);
    SixOfSeven(a, t1, b, t2, t3, d);
  }

  lemma SixOfSeven<T>(a: T, t1: T, b: T, t2: T, t3: T, d: T)
    ensures [a] + [t1] + [b] + [t2] + [] + [t3] + [d] == [a, t1, b, t2, t3, d]
  {
  }

  /** Three tags whose first and second are adjacent. */
  lemma TokenizeTagTag(a: string, t1: string, t2: string, c: string, t3: string, d: string)
    requires BraceFree(a) && BraceFree(c) && BraceFree(d)
    requires IsTag(t1) && IsTag(t2) && IsTag(t3)
    requires a != "" && c != "" && d != ""
    ensures Tokenize(a + t1 + t2 + c + t3 + d) == [a, t1, t2, c, t3, d]
  {
    var x := a + t1;
    assert x + "" == x;
    TokenizeSeven(a, t1, "", t2, c, t3, d);
    SixOfSevenEarly(a, t1, t2, c, t3, d);
  }

  lemma SixOfSevenEarly<T>(a: T, t1: T, t2: T, c: T, t3: T, d: T)
    ensures [a] + [t1] + [] + [t2] + [c] + [t3] + [d] == [a, t1, t2, c, t3, d]
  {
  }

  /** The same template split by the pattern: the pieces, empty ones included. */
  lemma SplitSeven(a: string, t1: string, b: string, t2: string, c: string, t3: string, d: string)
    requires BraceFree(a) && BraceFree(b) && BraceFree(c) && BraceFree(d)
    requires IsTag(t1) && IsTag(t2) && IsTag(t3)
    ensures Split(a + t1 + b + t2 + c + t3 + d, 0, 0) == [a, t1, b, t2, c, t3, d]
  {
    var p0 := [a];
    TokenizeFirst(a);
    var p1 := p0 + [t1, b];
    TokenizeSnoc(p0, t1, b);
    var p2 := p1 + [t2, c];
    TokenizeSnoc(p1, t2, c);
    var p3 := p2 + [t3, d];
    TokenizeSnoc(p2, t3, d);
    var t := a + t1 + b + t2 + c + t3 + d;
    assert t[0..] == t;
    SplitOfPieces(t, 0, p3);
    SevenPieces(a, t1, b, t2, c, t3, d);
  }

  lemma SevenPieces<T>(a: T, t1: T, b: T, t2: T, c: T, t3: T, d: T)
    ensures [a] + [t1, b] + [t2, c] + [t3, d] == [a, t1, b, t2, c, t3, d]
  {
  }

  /** The markers of the conditional and loop examples are tags. */
  lemma ExampleTags()
    ensures IsTag("{% if age >= 18 %}") && IsTag("{% else %}") && IsTag("{% endif %}")
    ensures IsTag("{% for friend in friends %}") && IsTag("{{friend}}") && IsTag("{% endfor %}")
  {
    TagByBody("{% if age >= 18 %}");
    TagByBody("{% else %}");
    TagByBody("{% endif %}");
    TagByBody("{% for friend in friends %}");
    TagByBody("{{friend}}");
    TagByBody("{% endfor %}");
  }

  /** An expression opener inside a statement marker does not split it: the leftmost match
      starts at `{%` and runs to the first `%}`. */
  lemma TokenizeNestedOpener(t: string)
    requires t == "{%{{a}}%}"
    ensures Tokenize(t) == ["{%{{a}}%}"]
  {
    TagByBody("{%{{a}}%}");
    TokenizeThree("", "{%{{a}}%}", "");
    assert "" + "{%{{a}}%}" + "" == "{%{{a}}%}";
  }

  /** An empty template has no tokens. */
  lemma TokenizeEmpty()
    ensures Tokenize("") == []
  {
  }

  lemma FlatFree()
    ensures BraceFree("Hello there, ") && BraceFree("!")
    ensures BraceFree("You need ") && BraceFree(" until you have a round dozen")
  {
  }

  /** Simple string interpolation. */
  lemma TokenizeHello(t: string)
    requires t == "Hello there, " + "{{ Name }}" + "!"
    ensures Tokenize(t) == ["Hello there, ", "{{ Name }}", "!"]
  {
    TagByBody("{{ Name }}");
    FlatFree();
    TokenizeTextTag("Hello there, ", "{{ Name }}", "!");
  }

  /** A template that is one expression is one token; the empty texts around it are dropped. */
  lemma TokenizeName(t: string)
    requires t == "{{ Name }}"
    ensures Tokenize(t) == ["{{ Name }}"]
  {
    TagByBody("{{ Name }}");
    TokenizeThree("", "{{ Name }}", "");
    assert "" + "{{ Name }}" + "" == "{{ Name }}";
  }

  /** Calculations: the expression is one token whatever its spacing. */
  lemma TokenizeCalc(t: string)
    requires t == "You need " + "{{12 - apple_count}}" + " until you have a round dozen"
    ensures Tokenize(t) == ["You need ", "{{12 - apple_count}}", " until you have a round dozen"]
  {
    TagByBody("{{12 - apple_count}}");
    FlatFree();
    TokenizeTextTag("You need ", "{{12 - apple_count}}", " until you have a round dozen");
  }

  lemma IfElseFree()
    ensures BraceFree("You are ") && BraceFree("old enough") && BraceFree("not old enough") && BraceFree("!")
  {
  }

  /** The pattern's split of the conditional template: texts and tags alternate. */
  lemma SplitIfElse(t: string)
    requires t == "You are " + "{% if age >= 18 %}" + "old enough" + "{% else %}" + "not old enough"
                  + "{% endif %}" + "!"
    ensures Split(t, 0, 0) == ["You are ", "{% if age >= 18 %}", "old enough", "{% else %}", "not old enough",
                               "{% endif %}", "!"]
  {
    ExampleTags();
    IfElseFree();
    SplitSeven("You are ", "{% if age >= 18 %}", "old enough", "{% else %}", "not old enough",
               "{% endif %}", "!");
  }

  /** Conditionals. */
  lemma TokenizeIfElse(t: string)
    requires t == "You are " + "{% if age >= 18 %}" + "old enough" + "{% else %}" + "not old enough"
                  + "{% endif %}" + "!"
    ensures Tokenize(t) == ["You are ", "{% if age >= 18 %}", "old enough", "{% else %}", "not old enough",
                            "{% endif %}", "!"]
  {
    ExampleTags();
    IfElseFree();
    TokenizeTextTags("You are ", "{% if age >= 18 %}", "old enough", "{% else %}", "not old enough",
                     "{% endif %}", "!");
  }

  /** An empty `else` branch leaves no token between the `else` and the `endif`. */
  lemma TokenizeEmptyElse(t: string)
    requires t == "You are " + "{% if age >= 18 %}" + "old enough" + "{% else %}" + "{% endif %}" + "!"
    ensures Tokenize(t) == ["You are ", "{% if age >= 18 %}", "old enough", "{% else %}", "{% endif %}", "!"]
  {
    ExampleTags();
    IfElseFree();
    TokenizeTextTagTag("You are ", "{% if age >= 18 %}", "old enough", "{% else %}", "{% endif %}", "!");
  }

  lemma LoopFree()
    ensures BraceFree("After, you can call ") && BraceFree(",") && BraceFree(" to help us eat.")
  {
  }

  /** Loops. */
  lemma TokenizeLoop(t: string)
    requires t == "After, you can call " + "{% for friend in friends %}" + "{{friend}}" + "," + "{% endfor %}"
                  + " to help us eat."
    ensures Tokenize(t) == ["After, you can call ", "{% for friend in friends %}", "{{friend}}", ",",
                            "{% endfor %}", " to help us eat."]
  {
    ExampleTags();
    LoopFree();
    TokenizeTagTag("After, you can call ", "{% for friend in friends %}", "{{friend}}", ",",
                   "{% endfor %}", " to help us eat.");
  }

  lemma BangFree()
    ensures BraceFree("old enough!") && BraceFree("not old enough!")
  {
  }

  /** The pattern's split leaves an empty text before a tag at the start and after a tag at
      the end. */
  lemma SplitKeepsEmpty(t: string)
    requires t == "" + "{% if age >= 18 %}" + "old enough!" + "{% else %}" + "not old enough!" + "{% endif %}" + ""
    ensures Split(t, 0, 0) == ["", "{% if age >= 18 %}", "old enough!", "{% else %}", "not old enough!",
                               "{% endif %}", ""]
  {
    ExampleTags();
    BangFree();
    SplitSeven("", "{% if age >= 18 %}", "old enough!", "{% else %}", "not old enough!", "{% endif %}", "");
  }

  /** `tokenize` drops those empty texts. */
  lemma TokenizeDropsEmpty(t: string)
    requires t == "" + "{% if age >= 18 %}" + "old enough!" + "{% else %}" + "not old enough!" + "{% endif %}" + ""
    ensures Tokenize(t) == ["{% if age >= 18 %}", "old enough!", "{% else %}", "not old enough!", "{% endif %}"]
  {
    ExampleTags();
    BangFree();
    TokenizeBare("{% if age >= 18 %}", "old enough!", "{% else %}", "not old enough!", "{% endif %}");
  }

  /** Three tags with nothing before the first or after the last. */
  lemma TokenizeBare(t1: string, b: string, t2: string, c: string, t3: string)
    requires BraceFree(b) && BraceFree(c) && IsTag(t1) && IsTag(t2) && IsTag(t3)
    requires b != "" && c != ""
    ensures Tokenize("" + t1 + b + t2 + c + t3 + "") == [t1, b, t2, c, t3]
  {
    TokenizeSeven("", t1, b, t2, c, t3, "");
    FiveOfSeven(t1, b, t2, c, t3);
  }

  lemma FiveOfSeven<T>(t1: T, b: T, t2: T, c: T, t3: T)
    ensures [] + [t1] + [b] + [t2] + [c] + [t3] + [] == [t1, b, t2, c, t3]
  {
  }

  /** A template of seven texts with six tags between them. */
  lemma TokenizeThirteen(a: string, t1: string, b: string, t2: string, c: string, t3: string, d: string,
                         t4: string, e: string, t5: string, f: string, t6: string, g: string)
    requires BraceFree(a) && BraceFree(b) && BraceFree(c) && BraceFree(d)
    requires BraceFree(e) && BraceFree(f) && BraceFree(g)
    requires IsTag(t1) && IsTag(t2) && IsTag(t3) && IsTag(t4) && IsTag(t5) && IsTag(t6)
    ensures Tokenize(a + t1 + b + t2 + c + t3 + d + t4 + e + t5 + f + t6 + g)
         == Kept(a) + [t1] + Kept(b) + [t2] + Kept(c) + [t3] + Kept(d) + [t4] + Kept(e) + [t5]
            + Kept(f) + [t6] + Kept(g)
  {
    var p0 := [a];
    TokenizeFirst(a);
    var p1 := p0 + [t1, b];
    TokenizeSnoc(p0, t1, b);
    var p2 := p1 + [t2, c];
    TokenizeSnoc(p1, t2, c);
    var p3 := p2 + [t3, d];
    TokenizeSnoc(p2, t3, d);
    var p4 := p3 + [t4, e];
    TokenizeSnoc(p3, t4, e);
    var p5 := p4 + [t5, f];
    TokenizeSnoc(p4, t5, f);
    var p6 := p5 + [t6, g];
    TokenizeSnoc(p5, t6, g);
    TokenizeOfPieces(p6);
  }

  /** Two tags in a row, twice: the empty texts between them are dropped. */
  lemma TokenizeTwoPairs(a: string, t1: string, b: string, t2: string, t3: string, d: string,
                         t4: string, t5: string, f: string, t6: string, g: string)
    requires BraceFree(a) && BraceFree(b) && BraceFree(d) && BraceFree(f) && BraceFree(g)
    requires IsTag(t1) && IsTag(t2) && IsTag(t3) && IsTag(t4) && IsTag(t5) && IsTag(t6)
    requires a != "" && b != "" && d != "" && f != "" && g != ""
    ensures Tokenize(a + t1 + b + t2 + "" + t3 + d + t4 + "" + t5 + f + t6 + g)
         == [a, t1, b, t2, t3, d, t4, t5, f, t6, g]
  {
    TokenizeThirteen(a, t1, b, t2, "", t3, d, t4, "", t5, f, t6, g);
    ElevenOfThirteen(a, t1, b, t2, t3, d, t4, t5, f, t6, g);
  }

  lemma ElevenOfThirteen<T>(a: T, t1: T, b: T, t2: T, t3: T, d: T, t4: T, t5: T, f: T, t6: T, g: T)
    ensures [a] + [t1] + [b] + [t2] + [] + [t3] + [d] + [t4] + [] + [t5] + [f] + [t6] + [g]
         == [a, t1, b, t2, t3, d, t4, t5, f, t6, g]
  {
  }

  lemma CombinedFree()
    ensures BraceFree("You are ") && BraceFree("old enough and you have enough friends: ")
    ensures BraceFree(",") && BraceFree("not old enough") && BraceFree("!")
  {
  }

  /** Combined statements: a loop inside the consequence of a conditional. */
  lemma TokenizeCombined(t: string)
    requires t == "You are " + "{% if age >= 18 %}" + "old enough and you have enough friends: "
                  + "{% for friend in friends %}" + "" + "{{friend}}" + "," + "{% endfor %}" + ""
                  + "{% else %}" + "not old enough" + "{% endif %}" + "!"
    ensures Tokenize(t) == ["You are ", "{% if age >= 18 %}", "old enough and you have enough friends: ",
                            "{% for friend in friends %}", "{{friend}}", ",", "{% endfor %}", "{% else %}",
                            "not old enough", "{% endif %}", "!"]
  {
    ExampleTags();
    CombinedFree();
    TokenizeTwoPairs("You are ", "{% if age >= 18 %}", "old enough and you have enough friends: ",
                     "{% for friend in friends %}", "{{friend}}", ",", "{% endfor %}", "{% else %}",
                     "not old enough", "{% endif %}", "!");
  }

  // ---------------------------------------------------------------------------------------
  // `parse`

  /** A string constant: neither an expression nor a statement. */
  predicate IsText(token: string) {
    !IsExpr(token) && !StartsStmt(token)
  }

  lemma ForestCons(t: Tree, ts: seq<Tree>)
    ensures Wf([t] + ts) == (WfOne(t) && Wf(ts))
    ensures Flatten([t] + ts) == FlattenOne(t) + Flatten(ts)
    ensures Expected([t] + ts) == [ExpectedOne(t)] + Expected(ts)
  {
    assert ([t] + ts)[0] == t;
    assert ([t] + ts)[1..] == ts;
  }

  lemma ForestOne(t: Tree)
    ensures Wf([t]) == WfOne(t) && Flatten([t]) == FlattenOne(t) && Expected([t]) == [ExpectedOne(t)]
  {
    ForestCons(t, []);
    assert [t] + [] == [t];
    assert FlattenOne(t) + [] == FlattenOne(t);
  }

  /** Three trees side by side. */
  lemma ForestThree(x: Tree, y: Tree, z: Tree)
    ensures Wf([x, y, z]) == (WfOne(x) && WfOne(y) && WfOne(z))
    ensures Flatten([x, y, z]) == FlattenOne(x) + FlattenOne(y) + FlattenOne(z)
    ensures Expected([x, y, z]) == [ExpectedOne(x), ExpectedOne(y), ExpectedOne(z)]
  {
    ForestOne(z);
    ForestCons(y, [z]);
    ForestCons(x, [y] + [z]);
    assert [x] + ([y] + [z]) == [x, y, z];
  }

  /** Two trees side by side. */
  lemma ForestTwo(x: Tree, y: Tree)
    ensures Wf([x, y]) == (WfOne(x) && WfOne(y))
    ensures Flatten([x, y]) == FlattenOne(x) + FlattenOne(y)
    ensures Expected([x, y]) == [ExpectedOne(x), ExpectedOne(y)]
  {
    ForestOne(y);
    ForestCons(x, [y]);
    assert [x] + [y] == [x, y];
  }

  /** The parse of an empty token list. */
  lemma ParseEmpty()
    ensures Parsed([], 0) == Ok([])
  {
  }

  /** Text, an expression, text: flat things stay flat. */
  lemma ParseFlat(tokens: seq<string>, a: string, e: string, d: string, ev: Node)
    requires tokens == [a, e, d]
    requires IsText(a) && IsExpr(e) && IsText(d) && ParseExpr(Strip(e)) == ev
    ensures Parsed(tokens, 0) == Ok([Str(a), ev, Str(d)])
  {
    ForestThree(Plain(a), Expr(e), Plain(d));
    ParseOfFlattened([Plain(a), Expr(e), Plain(d)]);
    assert [a] + [e] + [d] == [a, e, d];
  }

  /** The words of an expression and the tuple it parses to. */
  lemma ExprWords(token: string, ws: seq<string>)
    requires Words(Strip(token)) == ws
    ensures ParseExpr(Strip(token)) == Tup(MakeInts(ws))
  {
  }

  lemma MakeOne(x: string)
    ensures MakeInts([x]) == [MakeInt(x)]
  {
  }

  lemma MakeThree(x: string, y: string, z: string)
    ensures MakeInts([x, y, z]) == [MakeInt(x), MakeInt(y), MakeInt(z)]
  {
  }

  lemma StrsOne(x: string)
    ensures Strs([x]) == [Str(x)]
  {
  }

  lemma StrsThree(x: string, y: string, z: string)
    ensures Strs([x, y, z]) == [Str(x), Str(y), Str(z)]
  {
  }

  /** A two-digit word and the number it spells. */
  lemma TwoDigits(w: string, hi: nat, lo: nat)
    requires |w| == 2 && hi <= 9 && lo <= 9
    requires w[0] as int == '0' as int + hi && w[1] as int == '0' as int + lo
    ensures IsDigits(w) && DigitsValue(w) == 10 * hi + lo
  {
    assert w[..1][..0] == "";
    assert DigitsValue(w[..1]) == hi;
  }

  lemma ExprName()
    ensures ParseExpr(Strip("{{ Name }}")) == Tup([Str("Name")])
  {
    assert AllWords(["Name"]);
    PaddedWords("{{ Name }}", "{{", ["Name"], "}}");
    assert "Name"[0] == 'N';
    MakeOne("Name");
  }

  lemma ExprFriend()
    ensures IsExpr("{{friend}}") && ParseExpr(Strip("{{friend}}")) == Tup([Str("friend")])
  {
    assert AllWords(["friend"]);
    TightWords("{{friend}}", "{{", ["friend"], "}}");
    assert "friend"[0] == 'f';
    MakeOne("friend");
  }

  /** The words of an expression marker of three words between tight braces. */
  lemma TightThree(token: string, x: string, y: string, z: string)
    requires IsWord(x) && IsWord(y) && IsWord(z)
    requires token == "{{" + x + " " + y + " " + z + "}}"
    ensures Words(Strip(token)) == [x, y, z]
  {
    var ws := [x, y, z];
    assert AllWords(ws);
    assert Join(ws) == x + " " + y + " " + z by {
      assert ws[1..] == [y, z];
      assert [y, z][1..] == [z];
      assert Join([y, z]) == y + " " + z;
    }
    TightWords(token, "{{", ws, "}}");
  }

  lemma ExprCalc(token: string)
    requires token == "{{12 - apple_count}}"
    ensures ParseExpr(Strip(token)) == Tup([Int(12), Str("-"), Str("apple_count")])
  {
    TightThree(token, "12", "-", "apple_count");
    TwoDigits("12", 1, 2);
    assert "-"[0] == '-' && "apple_count"[0] == 'a';
    MakeThree("12", "-", "apple_count");
  }

  lemma FlatTexts()
    ensures IsText("Hello there, ") && IsText("!") && IsExpr("{{ Name }}")
    ensures IsText("You need ") && IsText(" until you have a round dozen") && IsExpr("{{12 - apple_count}}")
  {
  }

  /** Simple string interpolation. */
  lemma ParseHello(tokens: seq<string>)
    requires tokens == ["Hello there, ", "{{ Name }}", "!"]
    ensures Parsed(tokens, 0) == Ok([Str("Hello there, "), Tup([Str("Name")]), Str("!")])
  {
    FlatTexts();
    ExprName();
    ParseFlat(tokens, "Hello there, ", "{{ Name }}", "!", Tup([Str("Name")]));
  }

  /** Calculations: the digit word becomes an int. */
  lemma ParseCalc(tokens: seq<string>)
    requires tokens == ["You need ", "{{12 - apple_count}}", " until you have a round dozen"]
    ensures Parsed(tokens, 0)
         == Ok([Str("You need "), Tup([Int(12), Str("-"), Str("apple_count")]), Str(" until you have a round dozen")])
  {
    FlatTexts();
    ExprCalc("{{12 - apple_count}}");
    ParseFlat(tokens, "You need ", "{{12 - apple_count}}", " until you have a round dozen",
              Tup([Int(12), Str("-"), Str("apple_count")]));
  }

  // ---------------------------------------------------------------------------------------
  // Block statements

  /** An `if` marker: its kind, and the condition its words after `if` parse to. */
  lemma IfCondition(token: string, ws: seq<string>, cond: seq<Node>)
    requires StartsStmt(token) && KindOf(token) == IfKind
    requires Words(Strip(token)) == ["if"] + ws && MakeInts(ws) == cond
    ensures Opens(token, "if") && IsMarker(token, "if")
    ensures Params(token) == ws && ParseExpr(Join(Params(token))) == Tup(cond)
  {
    assert (["if"] + ws)[1..] == ws;
    IfConditionWords(token);
  }

  /** A condition of three words none of which starts with a digit. */
  lemma WordsCondition(token: string, a: string, op: string, b: string)
    requires StartsStmt(token) && KindOf(token) == IfKind
    requires Words(Strip(token)) == ["if", a, op, b]
    requires |a| > 0 && |op| > 0 && |b| > 0
    requires !('0' <= a[0] <= '9') && !('0' <= op[0] <= '9') && !('0' <= b[0] <= '9')
    ensures Opens(token, "if") && IsMarker(token, "if")
    ensures ParseExpr(Join(Params(token))) == Tup([Str(a), Str(op), Str(b)])
  {
    var ws := [a, op, b];
    assert ["if", a, op, b] == ["if"] + ws;
    MakeThree(a, op, b);
    IfCondition(token, ws, [Str(a), Str(op), Str(b)]);
  }

  /** The condition `age >= n` for a two-digit `n`. */
  lemma AgeAtLeast(token: string, num: string, hi: nat, lo: nat)
    requires StartsStmt(token) && KindOf(token) == IfKind
    requires Words(Strip(token)) == ["if", "age", ">=", num]
    requires |num| == 2 && hi <= 9 && lo <= 9
    requires num[0] as int == '0' as int + hi && num[1] as int == '0' as int + lo
    ensures Opens(token, "if") && IsMarker(token, "if")
    ensures ParseExpr(Join(Params(token))) == Tup([Str("age"), Str(">="), Int(10 * hi + lo)])
  {
    var ws := ["age", ">=", num];
    assert ["if", "age", ">=", num] == ["if"] + ws;
    TwoDigits(num, hi, lo);
    assert "age"[0] == 'a' && ">="[0] == '>';
    MakeThree("age", ">=", num);
    IfCondition(token, ws, [Str("age"), Str(">="), Int(10 * hi + lo)]);
  }

  lemma Cond18(token: string)
    requires token == "{% if age >= 18 %}"
    ensures StartsStmt(token) && Opens(token, "if") && IsMarker(token, "if")
    ensures ParseExpr(Join(Params(token))) == Tup([Str("age"), Str(">="), Int(18)])
  {
    MarkerIf18();
    AgeAtLeast(token, "18", 1, 8);
  }

  lemma Cond65(token: string)
    requires token == "{% if age >= 65 %}"
    ensures StartsStmt(token) && Opens(token, "if") && IsMarker(token, "if")
    ensures ParseExpr(Join(Params(token))) == Tup([Str("age"), Str(">="), Int(65)])
  {
    MarkerIf65();
    AgeAtLeast(token, "65", 6, 5);
  }

  lemma MarkerIfSuperman()
    ensures StartsStmt("{% if friend == \"Superman\" %}") && KindOf("{% if friend == \"Superman\" %}") == IfKind
    ensures Words(Strip("{% if friend == \"Superman\" %}")) == ["if", "friend", "==", "\"Superman\""]
  {
    var ws := ["if", "friend", "==", "\"Superman\""];
    assert AllWords(ws);
    StmtMarkerWords("{% if friend == \"Superman\" %}", ws);
    KeywordsAreLower();
    KindByWord("{% if friend == \"Superman\" %}", "if");
  }
  /** A quoted word is no number: it stays a string, quotes included. */
  lemma CondSuperman(token: string)
    requires token == "{% if friend == \"Superman\" %}"
    ensures StartsStmt(token) && Opens(token, "if") && IsMarker(token, "if")
    ensures ParseExpr(Join(Params(token))) == Tup([Str("friend"), Str("=="), Str("\"Superman\"")])
  {
    MarkerIfSuperman();
    assert "friend"[0] == 'f' && "=="[0] == '=' && "\"Superman\""[0] == '"';
    WordsCondition(token, "friend", "==", "\"Superman\"");
  }

  /** `for` is no keyword of the scans: its length already differs from theirs. */
  lemma MarkerFor()
    ensures StartsStmt("{% for friend in friends %}") && KindOf("{% for friend in friends %}") == OtherKind
  {
    SecondWord("{% for friend in friends %}", "for", " friend in friends %}");
    KindByWord("{% for friend in friends %}", "for");
  }

  lemma ForWordsAreWords()
    ensures AllWords(["for", "friend", "in", "friends"])
  {
    assert IsWord("for") && IsWord("friend") && IsWord("in") && IsWord("friends");
  }

  /** The interior of a marker with two-character braces. */
  lemma StripOf(token: string, open: string, inner: string, close: string)
    requires |open| == 2 && |close| == 2 && token == open + inner + close
    ensures Strip(token) == inner
  {
    assert token[2..|token| - 2] == inner;
  }

  lemma JoinFour(a: string, b: string, c: string, d: string)
    ensures Join([a, b, c, d]) == a + " " + b + " " + c + " " + d
  {
    assert [a, b, c, d][1..] == [b, c, d];
    assert [b, c, d][1..] == [c, d];
    assert [c, d][1..] == [d];
    assert Join([c, d]) == c + " " + d;
    assert Join([b, c, d]) == b + " " + (c + " " + d);
  }

  lemma StripFor()
    ensures Strip("{% for friend in friends %}") == " for friend in friends "
  {
    StripOf("{% for friend in friends %}", "{%", " for friend in friends ", "%}");
  }

  lemma InnerForWords()
    ensures Words(" for friend in friends ") == ["for", "friend", "in", "friends"]
  {
    ForWordsAreWords();
    JoinFour("for", "friend", "in", "friends");
    var j := "for" + " " + "friend" + " " + "in" + " " + "friends";
    assert j == "for friend in friends";
    assert " " + j + " " == " for friend in friends ";
    WordsOfPadded(["for", "friend", "in", "friends"]);
  }

  lemma MarkerForWords()
    ensures Words(Strip("{% for friend in friends %}")) == ["for", "friend", "in", "friends"]
  {
    StripFor();
    InnerForWords();
  }

  /** A `for` marker is nothing to the scans; its words after `for` are the loop's names. */
  lemma ForFriends(token: string)
    requires token == "{% for friend in friends %}"
    ensures StartsStmt(token) && Opens(token, "for") && Neutral(token)
    ensures Strs(Params(token)) == [Str("friend"), Str("in"), Str("friends")]
  {
    MarkerFor();
    OtherIsNeutral(token);
    MarkerForWords();
    assert ["for", "friend", "in", "friends"][1..] == ["friend", "in", "friends"];
    StrsThree("friend", "in", "friends");
  }

  lemma MarkerExtends()
    ensures StartsStmt("{% extends base.tmpl %}") && Neutral("{% extends base.tmpl %}")
    ensures Words(Strip("{% extends base.tmpl %}")) == ["extends", "base.tmpl"]
  {
    var ws := ["extends", "base.tmpl"];
    assert AllWords(ws);
    StmtMarkerWords("{% extends base.tmpl %}", ws);
    KindByWord("{% extends base.tmpl %}", "extends");
    OtherIsNeutral("{% extends base.tmpl %}");
  }

  /** A statement that opens no block. */
  lemma Extends(token: string)
    requires token == "{% extends base.tmpl %}"
    ensures StartsStmt(token) && Neutral(token) && |Words(Strip(token))| > 0
    ensures !Opens(token, "if") && !Opens(token, "for")
    ensures Keyword(token) == "extends" && Strs(Params(token)) == [Str("base.tmpl")]
  {
    MarkerExtends();
    assert ["extends", "base.tmpl"][1..] == ["base.tmpl"];
    StrsOne("base.tmpl");
  }

  // ---------------------------------------------------------------------------------------
  // The block examples of `parse`, over abstract tokens

  /** Text, an `if` block with one text in each branch, text. */
  lemma ParseIfBlock(tokens: seq<string>, a: string, tok: string, b: string, c: string, d: string, cond: Node)
    requires tokens == [a, tok, b, ElseMarker, c, EndifMarker, d]
    requires IsText(a) && IsText(b) && IsText(c) && IsText(d)
    requires StartsStmt(tok) && Opens(tok, "if") && IsMarker(tok, "if") && ParseExpr(Join(Params(tok))) == cond
    ensures Parsed(tokens, 0)
         == Ok([Str(a), Tup([Str("if"), cond, Str(b), Str(c)]), Str(d)])
  {
    var t := If(tok, [Plain(b)], [Plain(c)]);
    ForestOne(Plain(b));
    ForestOne(Plain(c));
    ForestThree(Plain(a), t, Plain(d));
    ParseOfFlattened([Plain(a), t, Plain(d)]);
    assert [a] + ([tok] + [b] + [ElseMarker] + [c] + [EndifMarker]) + [d]
        == [a, tok, b, ElseMarker, c, EndifMarker, d];
  }

  /** The same with an empty alternative. */
  lemma ParseIfEmptyElse(tokens: seq<string>, a: string, tok: string, b: string, d: string, cond: Node)
    requires tokens == [a, tok, b, ElseMarker, EndifMarker, d]
    requires IsText(a) && IsText(b) && IsText(d)
    requires StartsStmt(tok) && Opens(tok, "if") && IsMarker(tok, "if") && ParseExpr(Join(Params(tok))) == cond
    ensures Parsed(tokens, 0)
         == Ok([Str(a), Tup([Str("if"), cond, Str(b), Str("")]), Str(d)])
  {
    var t := If(tok, [Plain(b)], []);
    ForestOne(Plain(b));
    ForestThree(Plain(a), t, Plain(d));
    ParseOfFlattened([Plain(a), t, Plain(d)]);
    assert [a] + ([tok] + [b] + [ElseMarker] + [] + [EndifMarker]) + [d]
        == [a, tok, b, ElseMarker, EndifMarker, d];
  }

  /** An expression and a text, as a loop body. */
  lemma LoopBody(e: string, b: string)
    requires IsExpr(e) && IsText(b)
    ensures Wf([Expr(e), Plain(b)]) && EndforMarker !in Flatten([Expr(e), Plain(b)])
    ensures Flatten([Expr(e), Plain(b)]) == [e, b]
    ensures Expected([Expr(e), Plain(b)]) == [ParseExpr(Strip(e)), Str(b)]
  {
    ForestTwo(Expr(e), Plain(b));
    assert [e] + [b] == [e, b];
    assert EndforMarker[1] == '%';
  }

  /** Text, a `for` block over an expression and a text, text. */
  lemma ParseForBlock(tokens: seq<string>, a: string, tok: string, e: string, b: string, d: string, names: seq<Node>,
                       ev: Node)
    requires tokens == [a, tok, e, b, EndforMarker, d]
    requires IsText(a) && IsExpr(e) && IsText(b) && IsText(d)
    requires StartsStmt(tok) && Opens(tok, "for") && Neutral(tok)
    requires Strs(Params(tok)) == names && ParseExpr(Strip(e)) == ev
    ensures Parsed(tokens, 0) == Ok([Str(a), Tup([Str("for"), Lst(names), Lst([ev, Str(b)])]), Str(d)])
  {
    LoopBody(e, b);
    var t := For(tok, [Expr(e), Plain(b)]);
    ForestThree(Plain(a), t, Plain(d));
    ParseOfFlattened([Plain(a), t, Plain(d)]);
    assert [a] + ([tok] + [e, b] + [EndforMarker]) + [d] == [a, tok, e, b, EndforMarker, d];
  }

  /** A statement that opens no block, then text. */
  lemma ParseStmtText(tokens: seq<string>, tok: string, d: string, name: string, args: seq<Node>)
    requires tokens == [tok, d]
    requires StartsStmt(tok) && Neutral(tok) && |Words(Strip(tok))| > 0
    requires !Opens(tok, "if") && !Opens(tok, "for") && IsText(d)
    requires Keyword(tok) == name && Strs(Params(tok)) == args
    ensures Parsed(tokens, 0) == Ok([Tup([Str(name), Tup(args)]), Str(d)])
  {
    ForestTwo(Stmt(tok), Plain(d));
    ParseOfFlattened([Stmt(tok), Plain(d)]);
    assert [tok] + [d] == [tok, d];
  }

  /** Text, an `if` block whose consequence is text and a `for` block, text. */
  lemma ParseIfFor(tokens: seq<string>, a: string, iff: string, b: string, forr: string, e: string, c: string, f: string,
                    g: string, cond: Node, names: seq<Node>, ev: Node)
    requires tokens == [a, iff, b, forr, e, c, EndforMarker, ElseMarker, f, EndifMarker, g]
    requires IsText(a) && IsText(b) && IsExpr(e) && IsText(c) && IsText(f) && IsText(g)
    requires StartsStmt(iff) && Opens(iff, "if") && IsMarker(iff, "if") && ParseExpr(Join(Params(iff))) == cond
    requires StartsStmt(forr) && Opens(forr, "for") && Neutral(forr) && Strs(Params(forr)) == names
    requires ParseExpr(Strip(e)) == ev
    ensures Parsed(tokens, 0)
         == Ok([Str(a),
                Tup([Str("if"), cond, Lst([Str(b), Tup([Str("for"), Lst(names), Lst([ev, Str(c)])])]), Str(f)]),
                Str(g)])
  {
    LoopBody(e, c);
    var tf := For(forr, [Expr(e), Plain(c)]);
    ForestTwo(Plain(b), tf);
    ForestOne(Plain(f));
    var ti := If(iff, [Plain(b), tf], [Plain(f)]);
    ForestThree(Plain(a), ti, Plain(g));
    ParseOfFlattened([Plain(a), ti, Plain(g)]);
    FlatIfFor(a, iff, b, forr, e, c, f, g, ElseMarker, EndifMarker, EndforMarker);
  }

  lemma FlatIfFor<T>(a: T, iff: T, b: T, forr: T, e: T, c: T, f: T, g: T, els: T, endif: T, endfor: T)
    ensures [a] + ([iff] + ([b] + ([forr] + [e, c] + [endfor])) + [els] + [f] + [endif]) + [g]
         == [a, iff, b, forr, e, c, endfor, els, f, endif, g]
  {
  }

  /** Text, an `if` block whose consequence is text and another `if` block, both with empty
      alternatives. */
  lemma ParseIfIf(tokens: seq<string>, a: string, if1: string, b: string, if2: string, c: string, cond1: Node,
                   cond2: Node)
    requires tokens == [a, if1, b, if2, c, ElseMarker, EndifMarker, ElseMarker, EndifMarker]
    requires IsText(a) && IsText(b) && IsText(c)
    requires StartsStmt(if1) && Opens(if1, "if") && IsMarker(if1, "if") && ParseExpr(Join(Params(if1))) == cond1
    requires StartsStmt(if2) && Opens(if2, "if") && IsMarker(if2, "if") && ParseExpr(Join(Params(if2))) == cond2
    ensures Parsed(tokens, 0)
         == Ok([Str(a), Tup([Str("if"), cond1, Lst([Str(b), Tup([Str("if"), cond2, Str(c), Str("")])]), Str("")])])
  {
    ForestOne(Plain(c));
    var t2 := If(if2, [Plain(c)], []);
    ForestTwo(Plain(b), t2);
    var t1 := If(if1, [Plain(b), t2], []);
    ForestTwo(Plain(a), t1);
    ParseOfFlattened([Plain(a), t1]);
    FlatIfIf(a, if1, b, if2, c, ElseMarker, EndifMarker);
  }

  /** The tokens of the nested example, as `Flatten` writes them out. */
  lemma FlatIfIf<T>(a: T, if1: T, b: T, if2: T, c: T, els: T, endif: T)
    ensures [a] + ([if1] + ([b] + ([if2] + [c] + [els] + [] + [endif])) + [els] + [] + [endif])
         == [a, if1, b, if2, c, els, endif, els, endif]
  {
  }

  /** A loop whose body is one `if` block. */
  lemma LoopOfIf(if2: string, c: string, e: string, f: string)
    requires IsText(c) && IsExpr(e) && IsText(f)
    requires StartsStmt(if2) && Opens(if2, "if") && IsMarker(if2, "if")
    ensures Wf([If(if2, [Plain(c)], [Expr(e), Plain(f)])])
    ensures Flatten([If(if2, [Plain(c)], [Expr(e), Plain(f)])]) == [if2, c, ElseMarker, e, f, EndifMarker]
    ensures EndforMarker !in Flatten([If(if2, [Plain(c)], [Expr(e), Plain(f)])])
    ensures Expected([If(if2, [Plain(c)], [Expr(e), Plain(f)])])
         == [IfNode(Params(if2), [Str(c)], [ParseExpr(Strip(e)), Str(f)])]
  {
    ForestOne(Plain(c));
    LoopBody(e, f);
    var t := If(if2, [Plain(c)], [Expr(e), Plain(f)]);
    ForestOne(t);
    assert FlattenOne(t) == [if2, c, ElseMarker, e, f, EndifMarker];
    EndforMarkerKind(EndforMarker);
    assert EndforMarker[3] == 'e' && ElseMarker[3] == 'e' && EndifMarker[3] == 'e';
    assert EndforMarker != ElseMarker && EndforMarker != EndifMarker;
  }

  /** The `if` block of the loop example, around its loop. */
  lemma IfOfLoopOfIf(if1: string, b: string, forr: string, if2: string, c: string, e: string, f: string, g: string)
    requires IsText(b) && IsText(c) && IsExpr(e) && IsText(f) && IsText(g)
    requires StartsStmt(if1) && Opens(if1, "if") && IsMarker(if1, "if")
    requires StartsStmt(forr) && Opens(forr, "for") && Neutral(forr)
    requires StartsStmt(if2) && Opens(if2, "if") && IsMarker(if2, "if")
    ensures var t1 := If(if1, [Plain(b), For(forr, [If(if2, [Plain(c)], [Expr(e), Plain(f)])])], [Plain(g)]);
      WfOne(t1)
      && FlattenOne(t1) == [if1, b, forr, if2, c, ElseMarker, e, f, EndifMarker, EndforMarker, ElseMarker, g, EndifMarker]
      && ExpectedOne(t1)
         == IfNode(Params(if1),
                   [Str(b), ForNode(Params(forr), [IfNode(Params(if2), [Str(c)], [ParseExpr(Strip(e)), Str(f)])])],
                   [Str(g)])
  {
    LoopOfIf(if2, c, e, f);
    var t2 := If(if2, [Plain(c)], [Expr(e), Plain(f)]);
    var tf := For(forr, [t2]);
    ForestTwo(Plain(b), tf);
    ForestOne(Plain(g));
    FlatIfForIf(if1, b, forr, if2, c, e, f, g, ElseMarker, EndifMarker, EndforMarker);
  }

  lemma FlatIfForIf<T>(if1: T, b: T, forr: T, if2: T, c: T, e: T, f: T, g: T, els: T, endif: T, endfor: T)
    ensures [if1] + ([b] + ([forr] + [if2, c, els, e, f, endif] + [endfor])) + [els] + [g] + [endif]
         == [if1, b, forr, if2, c, els, e, f, endif, endfor, els, g, endif]
  {
  }

  /** The loop inside an `if` block whose body is another `if` block. */
  lemma ParseIfForIf(tokens: seq<string>, a: string, if1: string, b: string, forr: string, if2: string, c: string,
                     e: string, f: string, g: string, h: string, cond1: Node, names: seq<Node>, cond2: Node, ev: Node)
    requires tokens == [a, if1, b, forr, if2, c, ElseMarker, e, f, EndifMarker, EndforMarker, ElseMarker, g, EndifMarker, h]
    requires IsText(a) && IsText(b) && IsText(c) && IsExpr(e) && IsText(f) && IsText(g) && IsText(h)
    requires StartsStmt(if1) && Opens(if1, "if") && IsMarker(if1, "if")
    requires StartsStmt(forr) && Opens(forr, "for") && Neutral(forr)
    requires StartsStmt(if2) && Opens(if2, "if") && IsMarker(if2, "if")
    requires ParseExpr(Join(Params(if1))) == cond1 && Strs(Params(forr)) == names
    requires ParseExpr(Join(Params(if2))) == cond2 && ParseExpr(Strip(e)) == ev
    ensures Parsed(tokens, 0)
         == Ok([Str(a),
                Tup([Str("if"), cond1,
                     Lst([Str(b), Tup([Str("for"), Lst(names), Tup([Str("if"), cond2, Str(c), Lst([ev, Str(f)])])])]),
                     Str(g)]),
                Str(h)])
  {
    IfOfLoopOfIf(if1, b, forr, if2, c, e, f, g);
    var t1 := If(if1, [Plain(b), For(forr, [If(if2, [Plain(c)], [Expr(e), Plain(f)])])], [Plain(g)]);
    ForestThree(Plain(a), t1, Plain(h));
    ParseOfFlattened([Plain(a), t1, Plain(h)]);
    Around(a, if1, b, forr, if2, c, ElseMarker, e, f, EndifMarker, EndforMarker, ElseMarker, g, EndifMarker, h);
  }

  /** One element on each side of thirteen. */
  lemma Around<T>(x0: T, x1: T, x2: T, x3: T, x4: T, x5: T, x6: T, x7: T, x8: T, x9: T, x10: T, x11: T, x12: T,
                  x13: T, x14: T)
    ensures [x0] + [x1, x2, x3, x4, x5, x6, x7, x8, x9, x10, x11, x12, x13] + [x14]
         == [x0, x1, x2, x3, x4, x5, x6, x7, x8, x9, x10, x11, x12, x13, x14]
  {
  }

  // ---------------------------------------------------------------------------------------
  // The block examples of `parse`

  lemma IfTexts()
    ensures IsText("You are ") && IsText("old enough") && IsText("not old enough") && IsText("!")
    ensures IsText("old enough and you have enough friends: ") && IsText(",")
  {
  }

  lemma LoopTexts()
    ensures IsText("After, you can call ") && IsText(",") && IsText(" to help us eat.") && IsText("Hello there!")
  {
  }

  lemma SupermanTexts()
    ensures IsText("Condition one ") && IsText("is true, let's loop: ") && IsText("is true, let's see: ")
    ensures IsText(" yes you are a senior") && IsText("wow, Superman, you have powerful friends!")
    ensures IsText(",") && IsText("not old enough") && IsText("!")
  {
  }

  /** Conditionals. */
  lemma ParseIfElse(tokens: seq<string>)
    requires tokens == ["You are ", "{% if age >= 18 %}", "old enough", "{% else %}", "not old enough", "{% endif %}", "!"]
    ensures Parsed(tokens, 0)
         == Ok([Str("You are "), Tup([Str("if"), Tup([Str("age"), Str(">="), Int(18)]), Str("old enough"), Str("not old enough")]),
                Str("!")])
  {
    IfTexts();
    Cond18("{% if age >= 18 %}");
    ParseIfBlock(tokens, "You are ", "{% if age >= 18 %}", "old enough", "not old enough", "!", Tup([Str("age"), Str(">="), Int(18)]));
  }

  /** An empty alternative parses to the empty string. */
  lemma ParseEmptyElse(tokens: seq<string>)
    requires tokens == ["You are ", "{% if age >= 18 %}", "old enough", "{% else %}", "{% endif %}", "!"]
    ensures Parsed(tokens, 0)
         == Ok([Str("You are "), Tup([Str("if"), Tup([Str("age"), Str(">="), Int(18)]), Str("old enough"), Str("")]), Str("!")])
  {
    IfTexts();
    Cond18("{% if age >= 18 %}");
    ParseIfEmptyElse(tokens, "You are ", "{% if age >= 18 %}", "old enough", "!", Tup([Str("age"), Str(">="), Int(18)]));
  }

  /** For loops: the names as a list, the body as a list of its two parts. */
  lemma ParseLoop(tokens: seq<string>)
    requires tokens == ["After, you can call ", "{% for friend in friends %}", "{{friend}}", ",", "{% endfor %}",
                        " to help us eat."]
    ensures Parsed(tokens, 0)
         == Ok([Str("After, you can call "),
                Tup([Str("for"), Lst([Str("friend"), Str("in"), Str("friends")]), Lst([Tup([Str("friend")]), Str(",")])]),
                Str(" to help us eat.")])
  {
    LoopTexts();
    ForFriends("{% for friend in friends %}");
    ExprFriend();
    ParseForBlock(tokens, "After, you can call ", "{% for friend in friends %}", "{{friend}}", ",", " to help us eat.",
                  [Str("friend"), Str("in"), Str("friends")], Tup([Str("friend")]));
  }

  /** Some statements open no block. */
  lemma ParseExtends(tokens: seq<string>)
    requires tokens == ["{% extends base.tmpl %}", "Hello there!"]
    ensures Parsed(tokens, 0) == Ok([Tup([Str("extends"), Tup([Str("base.tmpl")])]), Str("Hello there!")])
  {
    LoopTexts();
    Extends("{% extends base.tmpl %}");
    ParseStmtText(tokens, "{% extends base.tmpl %}", "Hello there!", "extends", [Str("base.tmpl")]);
  }

  /** Blocks hold expressions and statements: an `if` whose consequence holds a loop. */
  lemma ParseCombined(tokens: seq<string>)
    requires tokens == ["You are ", "{% if age >= 18 %}", "old enough and you have enough friends: ",
                        "{% for friend in friends %}", "{{friend}}", ",", "{% endfor %}", "{% else %}", "not old enough",
                        "{% endif %}", "!"]
    ensures Parsed(tokens, 0)
         == Ok([Str("You are "),
                Tup([Str("if"), Tup([Str("age"), Str(">="), Int(18)]),
                     Lst([Str("old enough and you have enough friends: "),
                          Tup([Str("for"), Lst([Str("friend"), Str("in"), Str("friends")]),
                               Lst([Tup([Str("friend")]), Str(",")])])]),
                     Str("not old enough")]),
                Str("!")])
  {
    IfTexts();
    Cond18("{% if age >= 18 %}");
    ForFriends("{% for friend in friends %}");
    ExprFriend();
    ParseIfFor(tokens, "You are ", "{% if age >= 18 %}", "old enough and you have enough friends: ",
               "{% for friend in friends %}", "{{friend}}", ",", "not old enough", "!", Tup([Str("age"), Str(">="), Int(18)]), [Str("friend"), Str("in"), Str("friends")], Tup([Str("friend")]));
  }

  /** Nested statements. */
  lemma ParseNested(tokens: seq<string>)
    requires tokens == ["Condition one ", "{% if age >= 18 %}", "is true, let's see: ", "{% if age >= 65 %}",
                        " yes you are a senior", "{% else %}", "{% endif %}", "{% else %}", "{% endif %}"]
    ensures Parsed(tokens, 0)
         == Ok([Str("Condition one "),
                Tup([Str("if"), Tup([Str("age"), Str(">="), Int(18)]),
                     Lst([Str("is true, let's see: "),
                          Tup([Str("if"), Tup([Str("age"), Str(">="), Int(65)]), Str(" yes you are a senior"), Str("")])]),
                     Str("")])])
  {
    SupermanTexts();
    Cond18("{% if age >= 18 %}");
    Cond65("{% if age >= 65 %}");
    ParseIfIf(tokens, "Condition one ", "{% if age >= 18 %}", "is true, let's see: ", "{% if age >= 65 %}",
              " yes you are a senior", Tup([Str("age"), Str(">="), Int(18)]), Tup([Str("age"), Str(">="), Int(65)]));
  }


  /** A loop inside a conditional, and a conditional inside the loop; a loop body of one block
      is that block, not a list. */
  lemma ParseSuperman(tokens: seq<string>)
    requires tokens == ["Condition one ", "{% if age >= 18 %}", "is true, let's loop: ", "{% for friend in friends %}",
                        "{% if friend == \"Superman\" %}", "wow, Superman, you have powerful friends!", "{% else %}",
                        "{{friend}}", ",", "{% endif %}", "{% endfor %}", "{% else %}", "not old enough", "{% endif %}",
                        "!"]
    ensures Parsed(tokens, 0)
         == Ok([Str("Condition one "),
                Tup([Str("if"), Tup([Str("age"), Str(">="), Int(18)]),
                     Lst([Str("is true, let's loop: "),
                          Tup([Str("for"), Lst([Str("friend"), Str("in"), Str("friends")]),
                               Tup([Str("if"), Tup([Str("friend"), Str("=="), Str("\"Superman\"")]),
                                    Str("wow, Superman, you have powerful friends!"),
                                    Lst([Tup([Str("friend")]), Str(",")])])])]),
                     Str("not old enough")]),
                Str("!")])
  {
    Cond18("{% if age >= 18 %}");
    ForFriends("{% for friend in friends %}");
    CondSuperman("{% if friend == \"Superman\" %}");
    ExprFriend();
    SupermanTexts();
    ParseIfForIf(tokens, "Condition one ", "{% if age >= 18 %}", "is true, let's loop: ", "{% for friend in friends %}",
                 "{% if friend == \"Superman\" %}", "wow, Superman, you have powerful friends!", "{{friend}}", ",",
                 "not old enough", "!", Tup([Str("age"), Str(">="), Int(18)]), [Str("friend"), Str("in"), Str("friends")],
                 Tup([Str("friend"), Str("=="), Str("\"Superman\"")]), Tup([Str("friend")]));
  }

  // ---------------------------------------------------------------------------------------
  // Templates that `parse` rejects

  /** A statement with no word inside has no `subtokens[0]`. */
  lemma ParseEmptyStatement(tokens: seq<string>)
    requires tokens == ["{% %}"]
    ensures Parsed(tokens, 0) == Err(EmptyStatement("{% %}"))
  {
    StripOf("{% %}", "{%", " ", "%}");
    WordsAfterSpace("");
    EmptyStatementFails(tokens, 0);
  }

  /** An `if` with an `endif` but no exact `else` marker: the list's `index` finds none. */
  lemma ParseMissingElse(tokens: seq<string>)
    requires tokens == ["{% if age >= 18 %}", "old enough", "{% endif %}"]
    ensures Parsed(tokens, 0) == Err(MarkerNotFound(ElseMarker))
  {
    Cond18("{% if age >= 18 %}");
    NotElse();
    MissingElseOf(tokens, "{% if age >= 18 %}", "old enough", "{% endif %}");
  }

  lemma NotElse()
    ensures "{% if age >= 18 %}" != ElseMarker && "old enough" != ElseMarker && "{% endif %}" != ElseMarker
  {
    assert "{% if age >= 18 %}"[3] != ElseMarker[3];
    assert "old enough"[0] != ElseMarker[0];
    assert |"{% endif %}"| != |ElseMarker|;
  }

  lemma MissingElseOf(tokens: seq<string>, a: string, b: string, c: string)
    requires tokens == [a, b, c] && StartsStmt(a) && Opens(a, "if")
    requires a != ElseMarker && b != ElseMarker && c != ElseMarker
    ensures Parsed(tokens, 0) == Err(MarkerNotFound(ElseMarker))
  {
    MissingElseFails(tokens, 0);
  }

  /** Two-word `if` markers. */
  lemma IfOf(token: string, w: string)
    requires IsWord(w) && token == "{%" + (" " + Join(["if", w]) + " ") + "%}"
    ensures StartsStmt(token) && Opens(token, "if") && IsMarker(token, "if")
  {
    assert AllWords(["if", w]);
    StmtMarkerWords(token, ["if", w]);
    KeywordsAreLower();
    KindByWord(token, "if");
  }

  lemma IfA(token: string)
    requires token == "{% if a %}"
    ensures StartsStmt(token) && Opens(token, "if") && IsMarker(token, "if")
  {
    assert Join(["if", "a"]) == "if a" by { assert ["if", "a"][1..] == ["a"]; }
    IfOf(token, "a");
  }

  lemma IfB(token: string)
    requires token == "{% if b %}"
    ensures StartsStmt(token) && Opens(token, "if") && IsMarker(token, "if")
  {
    assert Join(["if", "b"]) == "if b" by { assert ["if", "b"][1..] == ["b"]; }
    IfOf(token, "b");
  }

  lemma EndlessKindScans()
    ensures ElseScan([IfKind, ElseKind, IfKind, ElseKind, EndifKind, OtherKind], 1, 0) == Found(1)
    ensures EndifScan([IfKind, ElseKind, IfKind, ElseKind, EndifKind, OtherKind], 1, 0) == Found(-1)
  {
  }

  /** An `if` at the start whose `else` comes right after it and whose `endif` scan finds
      nothing, once its branches parse. */
  lemma EndlessOf(tokens: seq<string>, als: seq<string>, alt: seq<Node>)
    requires 0 < |tokens| && StartsStmt(tokens[0]) && Opens(tokens[0], "if")
    requires IndexOf(tokens, 0, ElseMarker).Some? && IndexOf(tokens, 0, EndifMarker).Some?
    requires NextElse(tokens, 1) == Ok(1) && NextEndif(tokens, 1) == Ok(-1)
    requires PySlice(tokens, 1, 1) == [] && PySlice(tokens, 2, -1) == als && Parsed(als, 0) == Ok(alt)
    ensures Parsed(tokens, 0) == Err(EndlessLoop(tokens[0]))
  {
    EndlessLoopFails(tokens, 0, 1, [], alt);
  }

  lemma EndlessSlices(tokens: seq<string>, i1: string, el: string, i2: string, en: string, d: string)
    requires tokens == [i1, el, i2, el, en, d]
    ensures tokens[0] == i1 && IndexOf(tokens, 0, el).Some? && IndexOf(tokens, 0, en).Some?
    ensures PySlice(tokens, 1, 1) == [] && PySlice(tokens, 2, -1) == [i2, el, en]
  {
    var m := tokens[2..5];
    assert |m| == 3 && m[0] == i2 && m[1] == el && m[2] == en;
    assert m == [i2, el, en];
    IndexOfFound(tokens, 0, el, 1);
    IndexOfFound(tokens, 0, en, 4);
  }

  lemma EndlessScans(tokens: seq<string>, t0: string, t1: string, t2: string, t3: string, t4: string, t5: string)
    requires tokens == [t0, t1, t2, t3, t4, t5]
    requires KindOf(t0) == IfKind && KindOf(t1) == ElseKind && KindOf(t2) == IfKind
    requires KindOf(t3) == ElseKind && KindOf(t4) == EndifKind && KindOf(t5) == OtherKind
    ensures NextElse(tokens, 1) == Ok(1) && NextEndif(tokens, 1) == Ok(-1)
  {
    assert Kinds(tokens) == [IfKind, ElseKind, IfKind, ElseKind, EndifKind, OtherKind];
    EndlessKindScans();
    ElseScanOfKinds(tokens, 1, 0);
    EndifScanOfKinds(tokens, 1, 0);
  }

  /** An `if` block with both branches empty. */
  lemma EmptyBranches(token: string)
    requires StartsStmt(token) && Opens(token, "if") && IsMarker(token, "if")
    ensures Parsed([token, ElseMarker, EndifMarker], 0) == Ok([IfNode(Params(token), [], [])])
  {
    var inner := [If(token, [], [])];
    assert WfOne(inner[0]);
    assert Wf(inner);
    assert Flatten(inner) == [token, ElseMarker, EndifMarker] by {
      assert FlattenOne(inner[0]) == [token] + [] + [ElseMarker] + [] + [EndifMarker];
    }
    ParseOfFlattened(inner);
    assert Expected(inner) == [IfNode(Params(token), [], [])] by {
      assert ExpectedOne(inner[0]) == IfNode(Params(token), Expected([]), Expected([]));
    }
  }

  /** An alternative that opens an `if` of its own and closes it with the only `endif`: the
      source would loop for ever. */
  lemma ParseEndless(tokens: seq<string>)
    requires tokens == ["{% if a %}", "{% else %}", "{% if b %}", "{% else %}", "{% endif %}", "end"]
    ensures Parsed(tokens, 0) == Err(EndlessLoop("{% if a %}"))
  {
    IfA("{% if a %}");
    IfB("{% if b %}");
    assert KindOf("end") == OtherKind by { assert "end"[0] != '{'; }
    ElseMarkerKind(ElseMarker);
    EndifMarkerKind(EndifMarker);
    EmptyBranches("{% if b %}");
    EndlessScans(tokens, "{% if a %}", ElseMarker, "{% if b %}", ElseMarker, EndifMarker, "end");
    EndlessSlices(tokens, "{% if a %}", ElseMarker, "{% if b %}", EndifMarker, "end");
    EndlessOf(tokens, ["{% if b %}", ElseMarker, EndifMarker], [IfNode(Params("{% if b %}"), [], [])]);
  }
}
