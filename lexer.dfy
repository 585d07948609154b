/** The lexer: `tokenize` splits a template with `TOKEN_REGEX`, the pattern
    `({{.*?}}|{%.*?%})`, keeps the captured tags and drops the empty pieces. */
module Lexer {
  import opened Results

  /** Where the shortest `.*?` followed by the two closing characters `c1 c2` ends, when the
      scan starts at `q`. Python's `.` never matches a line feed, so a line feed before the
      closer means there is no match. */
  function CloseFrom(t: string, q: nat, c1: char, c2: char): (r: Option<nat>)
    ensures r.Some? ==> q + 2 <= r.value <= |t| && t[r.value - 2] == c1 && t[r.value - 1] == c2
    decreases |t| - q
  {
    if q + 2 > |t| then None
    else if t[q] == c1 && t[q + 1] == c2 then Some(q + 2)
    else if t[q] == '\n' then None
    else CloseFrom(t, q + 1, c1, c2)
  }

  /** A closer the search finds is the first one after `q`, and no line feed comes before it. */
  lemma {:induction false} CloseFromFirst(t: string, q: nat, c1: char, c2: char)
    requires CloseFrom(t, q, c1, c2).Some?
    ensures forall k :: q <= k < CloseFrom(t, q, c1, c2).value - 2 ==>
      t[k] != '\n' && !(t[k] == c1 && t[k + 1] == c2)
    decreases |t| - q
  {
    if !(t[q] == c1 && t[q + 1] == c2) {
      CloseFromFirst(t, q + 1, c1, c2);
    }
  }

  /** When the search finds no closer, every closing pair after `q` has a line feed before it. */
  lemma {:induction false} CloseFromNone(t: string, q: nat, c1: char, c2: char)
    requires CloseFrom(t, q, c1, c2).None?
    ensures forall k :: q <= k < |t| - 1 && t[k] == c1 && t[k + 1] == c2 ==> '\n' in t[q..k]
    decreases |t| - q
  {
    if q + 2 <= |t| && t[q] != '\n' {
      CloseFromNone(t, q + 1, c1, c2);
    }
  }

  /** The end of the match of `TOKEN_REGEX` that starts exactly at `p`, if there is one:
      `{{` up to the first `}}`, or `{%` up to the first `%}`, within one line. */
  function MatchAt(t: string, p: nat): (r: Option<nat>)
    ensures r.Some? ==> p + 4 <= r.value <= |t|
    ensures r.Some? ==> t[p] == '{' && (t[p + 1] == '{' || t[p + 1] == '%')
  {
    if p + 2 <= |t| && t[p] == '{' && t[p + 1] == '{' then CloseFrom(t, p + 2, '}', '}')
    else if p + 2 <= |t| && t[p] == '{' && t[p + 1] == '%' then CloseFrom(t, p + 2, '%', '}')
    else None
  }

  /** `s` is exactly one tag: one whole match of `TOKEN_REGEX`. */
  predicate IsTag(s: string) {
    MatchAt(s, 0) == Some(|s|)
  }

  /** `TOKEN_REGEX` finds no match anywhere in `s`. */
  predicate TagFree(s: string) {
    forall j :: 0 <= j < |s| ==> MatchAt(s, j).None?
  }

  /** `TOKEN_REGEX.split(t[from..])`, where the text piece under way starts at `from` and the
      search for the leftmost match has reached `p`. Because the pattern has one capturing group,
      every match is kept between the text before it and the text after it. */
  function Split(t: string, from: nat, p: nat): (pieces: seq<string>)
    requires from <= p <= |t|
    ensures |pieces| % 2 == 1
    decreases |t| - p
  {
    if p == |t| then [t[from..]]
    else match MatchAt(t, p)
      case Some(e) => [t[from..p], t[p..e]] + Split(t, e, e)
      case None => Split(t, from, p + 1)
  }

  /** The list comprehension `[token for token in tokens if token]`. */
  function DropEmpty(pieces: seq<string>): (r: seq<string>)
    ensures forall k :: 0 <= k < |r| ==> r[k] in pieces && r[k] != ""
  {
    if |pieces| == 0 then []
    else if pieces[0] == "" then DropEmpty(pieces[1..])
    else [pieces[0]] + DropEmpty(pieces[1..])
  }

  function Concat(pieces: seq<string>): string {
    if |pieces| == 0 then "" else pieces[0] + Concat(pieces[1..])
  }

  /** `tokenize(template)`: the texts and tags of `template`, in order, without empty pieces.
      Nothing is rewritten: the tokens put back together are the template; every token is a
      tag or a text in which the pattern finds nothing; and two texts are never adjacent, so
      every text is as long as it can be. An unterminated `{{` or `{%` stays inside a text. */
  function Tokenize(template: string): (tokens: seq<string>)
    ensures forall k :: 0 <= k < |tokens| ==> tokens[k] != ""
    ensures Concat(tokens) == template
    ensures forall k :: 0 <= k < |tokens| ==> IsTag(tokens[k]) != TagFree(tokens[k])
    ensures forall k :: 0 <= k < |tokens| - 1 ==> IsTag(tokens[k]) || IsTag(tokens[k + 1])
    ensures Located(template, 0, tokens)
  {
    if |template| == 0 then []
    else
      var pieces := Split(template, 0, 0);
      SplitConcat(template, 0, 0);
      SplitAlternates(template, 0, 0);
      DropEmptyAlternating(pieces);
      SplitLocated(template, 0, 0);
      DropEmptyLocated(template, 0, pieces);
      DropEmpty(pieces)
  }

  /** The tokens read against the whole template `t`, the first one at offset `o`: a tag is
      the match of `TOKEN_REGEX` that starts at its own offset of `t`, and no match of the
      whole template starts inside a text. */
  predicate Located(t: string, o: nat, tokens: seq<string>)
    decreases |tokens|
  {
    || |tokens| == 0
    || (&& (if IsTag(tokens[0]) then MatchAt(t, o) == Some(o + |tokens[0]|)
            else forall j :: o <= j < o + |tokens[0]| ==> MatchAt(t, j).None?)
        && Located(t, o + |tokens[0]|, tokens[1..]))
  }

  /** The split lays its pieces where the leftmost search found them. */
  lemma {:induction false} SplitLocated(t: string, from: nat, p: nat)
    requires from <= p <= |t|
    requires forall j :: from <= j < p ==> MatchAt(t, j).None?
    ensures Located(t, from, Split(t, from, p))
    decreases |t| - p
  {
    if p == |t| {
      TextIsTagFree(t, from, p);
      assert t[from..] == t[from..p];
      TagIsNotTagFree(t[from..p]);
      assert Split(t, from, p)[1..] == [];
    } else {
      match MatchAt(t, p)
      case Some(e) =>
        TextIsTagFree(t, from, p);
        TagIsNotTagFree(t[from..p]);
        MatchAtWindow(t, p, e, p);
        SplitLocated(t, e, e);
        var rest := Split(t, e, e);
        var all := [t[from..p], t[p..e]] + rest;
        assert all[0] == t[from..p] && all[1..][0] == t[p..e];
        assert all[1..][1..] == rest;
      case None =>
        SplitLocated(t, from, p + 1);
    }
  }

  /** Dropping the empty pieces moves no token from its offset. */
  lemma {:induction false} DropEmptyLocated(t: string, o: nat, pieces: seq<string>)
    requires Located(t, o, pieces)
    ensures Located(t, o, DropEmpty(pieces))
    decreases |pieces|
  {
    if |pieces| > 0 {
      var first := pieces[0];
      DropEmptyLocated(t, o + |first|, pieces[1..]);
      if first != "" {
        var r := [first] + DropEmpty(pieces[1..]);
        assert r[0] == first && r[1..] == DropEmpty(pieces[1..]);
      }
    }
  }

  /** The pieces of `TOKEN_REGEX.split` alternate: text, tag, text, ..., text. */
  predicate Alternating(pieces: seq<string>) {
    && |pieces| % 2 == 1
    && (forall k :: 0 <= k < |pieces| && k % 2 == 0 ==> TagFree(pieces[k]))
    && (forall k :: 0 <= k < |pieces| && k % 2 == 1 ==> IsTag(pieces[k]))
  }

  lemma {:induction false} ConcatAppend(a: seq<string>, b: seq<string>)
    ensures Concat(a + b) == Concat(a) + Concat(b)
  {
    if |a| == 0 {
      assert a + b == b;
    } else {
      assert (a + b)[0] == a[0];
      assert (a + b)[1..] == a[1..] + b;
      ConcatAppend(a[1..], b);
    }
  }

  /** Putting the pieces of the split back together gives the text back. */
  lemma {:induction false} SplitConcat(t: string, from: nat, p: nat)
    requires from <= p <= |t|
    ensures Concat(Split(t, from, p)) == t[from..]
    decreases |t| - p
  {
    if p == |t| {
      assert Concat([t[from..]]) == t[from..] + Concat([]);
    } else {
      match MatchAt(t, p)
      case Some(e) =>
        SplitConcat(t, e, e);
        ConcatAppend([t[from..p], t[p..e]], Split(t, e, e));
        assert Concat([t[from..p], t[p..e]]) == t[from..p] + (t[p..e] + Concat([]));
        assert t[from..] == t[from..p] + t[p..e] + t[e..];
      case None =>
        SplitConcat(t, from, p + 1);
    }
  }

  /** The closer found inside a window `t[a..b]` is the closer found in `t`, and conversely
      when the closer of `t` lies inside the window. */
  lemma {:induction false} CloseFromWindow(t: string, a: nat, b: nat, q: nat, c1: char, c2: char)
    requires a <= q <= b <= |t|
    ensures CloseFrom(t[a..b], q - a, c1, c2).Some? ==>
              CloseFrom(t, q, c1, c2) == Some(CloseFrom(t[a..b], q - a, c1, c2).value + a)
    ensures CloseFrom(t, q, c1, c2).Some? && CloseFrom(t, q, c1, c2).value <= b ==>
              CloseFrom(t[a..b], q - a, c1, c2) == Some(CloseFrom(t, q, c1, c2).value - a)
    decreases b - q
  {
    var w := t[a..b];
    if q + 2 <= b {
      assert w[q - a] == t[q] && w[q - a + 1] == t[q + 1];
      if !(t[q] == c1 && t[q + 1] == c2) && t[q] != '\n' {
        CloseFromWindow(t, a, b, q + 1, c1, c2);
      }
    }
  }

  lemma {:induction false} MatchAtWindow(t: string, a: nat, b: nat, p: nat)
    requires a <= p <= b <= |t|
    ensures MatchAt(t[a..b], p - a).Some? ==> MatchAt(t, p) == Some(MatchAt(t[a..b], p - a).value + a)
    ensures MatchAt(t, p).Some? && MatchAt(t, p).value <= b ==>
              MatchAt(t[a..b], p - a) == Some(MatchAt(t, p).value - a)
  {
    var w := t[a..b];
    if p + 2 <= b {
      assert w[p - a] == t[p] && w[p - a + 1] == t[p + 1];
      if t[p] == '{' && t[p + 1] == '{' {
        CloseFromWindow(t, a, b, p + 2, '}', '}');
      } else if t[p] == '{' && t[p + 1] == '%' {
        CloseFromWindow(t, a, b, p + 2, '%', '}');
      }
    }
  }

  /** The split alternates between tag-free texts and single tags. */
  lemma {:induction false} SplitAlternates(t: string, from: nat, p: nat)
    requires from <= p <= |t|
    requires forall j :: from <= j < p ==> MatchAt(t, j).None?
    ensures Alternating(Split(t, from, p))
    decreases |t| - p
  {
    if p == |t| {
      TextIsTagFree(t, from, p);
      assert t[from..] == t[from..p];
      assert Split(t, from, p)[0] == t[from..p];
    } else {
      match MatchAt(t, p)
      case Some(e) =>
        TextIsTagFree(t, from, p);
        MatchAtWindow(t, p, e, p);
        SplitAlternates(t, e, e);
        AlternatingCons(t[from..p], t[p..e], Split(t, e, e));
      case None =>
        SplitAlternates(t, from, p + 1);
    }
  }

  lemma AlternatingCons(text: string, tag: string, rest: seq<string>)
    requires TagFree(text) && IsTag(tag) && Alternating(rest)
    ensures Alternating([text, tag] + rest)
  {
    var all := [text, tag] + rest;
    forall k | 2 <= k < |all| ensures all[k] == rest[k - 2] { }
  }

  /** A text piece that the leftmost search skipped over holds no match. */
  lemma TextIsTagFree(t: string, from: nat, p: nat)
    requires from <= p <= |t|
    requires forall j :: from <= j < p ==> MatchAt(t, j).None?
    ensures TagFree(t[from..p])
  {
    forall j | 0 <= j < p - from
      ensures MatchAt(t[from..p], j).None?
    {
      MatchAtWindow(t, from, p, j + from);
    }
  }

  /** Dropping the empty texts from an alternating split keeps its text, keeps every token a
      tag or a tag-free text, and never leaves two texts side by side. */
  lemma {:induction false} DropEmptyAlternating(pieces: seq<string>)
    requires Alternating(pieces)
    ensures var r := DropEmpty(pieces);
      && Concat(r) == Concat(pieces)
      && (forall k :: 0 <= k < |r| ==> IsTag(r[k]) != TagFree(r[k]))
      && (forall k :: 0 <= k < |r| - 1 ==> IsTag(r[k]) || IsTag(r[k + 1]))
      && (|r| > 0 && !IsTag(r[0]) ==> r[0] == pieces[0])
    decreases |pieces|
  {
    var r := DropEmpty(pieces);
    TagIsNotTagFree(pieces[0]);
    if |pieces| == 1 {
      assert Concat(pieces) == pieces[0] + Concat([]);
    } else {
      var rest := pieces[2..];
      assert Alternating(rest) by {
        forall k | 0 <= k < |rest| ensures (k % 2 == 0 ==> TagFree(rest[k])) && (k % 2 == 1 ==> IsTag(rest[k])) {
          assert rest[k] == pieces[k + 2];
        }
      }
      DropEmptyAlternating(rest);
      var tail := DropEmpty(rest);
      var tag := pieces[1];
      assert IsTag(tag);
      TagIsNotTagFree(tag);
      assert tag != "";
      assert pieces[1..][1..] == rest;
      assert DropEmpty(pieces[1..]) == [tag] + tail;
      assert Concat(pieces) == pieces[0] + (tag + Concat(rest)) by {
        assert pieces[1..][0] == tag;
      }
      assert Concat([tag] + tail) == tag + Concat(tail) by {
        assert ([tag] + tail)[1..] == tail;
      }
      if pieces[0] == "" {
        assert r == [tag] + tail;
        forall k | 0 <= k < |r| ensures IsTag(r[k]) != TagFree(r[k]) {
          if k > 0 { assert r[k] == tail[k - 1]; }
        }
        forall k | 0 <= k < |r| - 1 ensures IsTag(r[k]) || IsTag(r[k + 1]) {
          if k > 0 { assert r[k] == tail[k - 1] && r[k + 1] == tail[k]; }
        }
      } else {
        var text := pieces[0];
        assert r == [text] + ([tag] + tail);
        assert Concat(r) == text + Concat([tag] + tail) by {
          assert r[1..] == [tag] + tail;
        }
        forall k | 0 <= k < |r| ensures IsTag(r[k]) != TagFree(r[k]) {
          if k > 1 { assert r[k] == tail[k - 2]; }
        }
        forall k | 0 <= k < |r| - 1 ensures IsTag(r[k]) || IsTag(r[k + 1]) {
          if k > 1 { assert r[k] == tail[k - 2] && r[k + 1] == tail[k - 1]; }
        }
      }
    }
  }

  /** A non-empty tag-free text is no tag, and a tag is never empty nor tag-free. */
  lemma TagIsNotTagFree(s: string)
    ensures s != "" && TagFree(s) ==> !IsTag(s)
    ensures IsTag(s) ==> s != "" && !TagFree(s)
  {
  }
  /** A text that cannot start a tag anywhere: it holds no `{`. */
  predicate BraceFree(s: string) {
    forall k :: 0 <= k < |s| ==> s[k] != '{'
  }

  /** Pieces laid out as texts without braces alternating with tags. */
  predicate Composable(pieces: seq<string>) {
    && |pieces| % 2 == 1
    && (forall k :: 0 <= k < |pieces| && k % 2 == 0 ==> BraceFree(pieces[k]))
    && (forall k :: 0 <= k < |pieces| && k % 2 == 1 ==> IsTag(pieces[k]))
  }

  /** The converse round trip: writing brace-free texts and tags one after the other and
      tokenizing the result gives back exactly the non-empty pieces. */
  lemma TokenizeOfPieces(pieces: seq<string>)
    requires Composable(pieces)
    ensures Tokenize(Concat(pieces)) == DropEmpty(pieces)
  {
    var t := Concat(pieces);
    SplitOfPieces(t, 0, pieces);
    if |t| == 0 {
      assert Split(t, 0, 0) == [""];
      assert DropEmpty([""]) == [];
    }
  }

  lemma {:induction false} SplitOfPieces(t: string, from: nat, pieces: seq<string>)
    requires from <= |t| && t[from..] == Concat(pieces)
    requires Composable(pieces)
    ensures Split(t, from, from) == pieces
    decreases |pieces|
  {
    var text := pieces[0];
    assert BraceFree(text);
    if |pieces| == 1 {
      assert Concat(pieces) == text + Concat([]);
      SplitLastText(t, from, text);
    } else {
      var tag, rest := pieces[1], pieces[2..];
      assert IsTag(tag);
      ConcatOfTail(pieces);
      var e := SplitFirstTag(t, from, text, tag, Concat(rest));
      ComposableTail(pieces);
      SplitOfPieces(t, e, rest);
      assert pieces == [text, tag] + rest;
    }
  }

  lemma SplitLastText(t: string, from: nat, text: string)
    requires from <= |t| && t[from..] == text && BraceFree(text)
    ensures Split(t, from, from) == [text]
  {
    SkipBraceFree(t, from, from, |t|);
  }

  /** Returns where the text after the tag starts. */
  lemma SplitFirstTag(t: string, from: nat, text: string, tag: string, rest: string) returns (e: nat)
    requires from <= |t| && t[from..] == text + (tag + rest)
    requires BraceFree(text) && IsTag(tag)
    ensures e <= |t| && t[e..] == rest
    ensures Split(t, from, from) == [text, tag] + Split(t, e, e)
  {
    var a := from + |text|;
    e := a + |tag|;
    SliceOfConcat(t, from, text, tag + rest);
    SliceOfConcat(t, a, tag, rest);
    SkipBraceFree(t, from, from, a);
    SplitAtTagInside(t, from, a, e);
    assert [t[from..a], t[a..e]] == [text, tag];
  }

  /** A tag written into a text is matched where it starts, and the split takes it whole. */
  lemma SplitAtTagInside(t: string, from: nat, a: nat, b: nat)
    requires from <= a <= b <= |t| && IsTag(t[a..b])
    ensures Split(t, from, a) == [t[from..a], t[a..b]] + Split(t, b, b)
  {
    MatchAtWindow(t, a, b, a);
    SplitAtTag(t, from, a, b);
  }

  lemma ConcatOfTail(pieces: seq<string>)
    requires |pieces| > 1
    ensures Concat(pieces[1..]) == pieces[1] + Concat(pieces[2..])
  {
    assert pieces[1..][1..] == pieces[2..];
  }

  lemma SplitAtTag(t: string, from: nat, p: nat, e: nat)
    requires from <= p < |t| && MatchAt(t, p) == Some(e)
    ensures Split(t, from, p) == [t[from..p], t[p..e]] + Split(t, e, e)
  {
  }

  lemma SliceOfConcat(t: string, from: nat, a: string, b: string)
    requires from <= |t| && t[from..] == a + b
    ensures t[from..from + |a|] == a && t[from + |a|..] == b
  {
    assert t[from..from + |a|] == t[from..][..|a|];
    assert t[from + |a|..] == t[from..][|a|..];
  }

  lemma ComposableTail(pieces: seq<string>)
    requires Composable(pieces) && |pieces| > 1
    ensures Composable(pieces[2..])
  {
    var rest := pieces[2..];
    forall k | 0 <= k < |rest|
      ensures (k % 2 == 0 ==> BraceFree(rest[k])) && (k % 2 == 1 ==> IsTag(rest[k]))
    {
      assert rest[k] == pieces[k + 2];
    }
  }

  /** The leftmost search passes over positions that hold no `{`. */
  lemma {:induction false} SkipBraceFree(t: string, from: nat, p: nat, q: nat)
    requires from <= p <= q <= |t|
    requires forall k :: p <= k < q ==> t[k] != '{'
    ensures Split(t, from, p) == Split(t, from, q)
    decreases q - p
  {
    if p < q {
      SkipBraceFree(t, from, p + 1, q);
    }
  }
}
