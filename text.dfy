/** The few string operations of Python that the template compiler relies on,
    restricted to ASCII: `str.split()`, `" ".join`, `str.lower()` and `str.isdigit()`. */
module Text {

  /** The ASCII characters `str.isspace()` accepts: tab, line feed, vertical tab, form feed,
      carriage return, the four separators 0x1c-0x1f, and space. */
  predicate IsSpace(c: char) {
    var n := c as int;
    n == 32 || 9 <= n <= 13 || 28 <= n <= 31
  }

  /** A piece that `str.split()` can produce: non-empty, without whitespace. */
  predicate IsWord(w: string) {
    |w| > 0 && forall k :: 0 <= k < |w| ==> !IsSpace(w[k])
  }

  predicate AllWords(ws: seq<string>) {
    forall k :: 0 <= k < |ws| ==> IsWord(ws[k])
  }

  /** The first whitespace position at or after `i`, or `|s|`. */
  function WordEnd(s: string, i: nat): (j: nat)
    requires i <= |s|
    ensures i <= j <= |s|
    ensures j == |s| || IsSpace(s[j])
    decreases |s| - i
  {
    if i == |s| || IsSpace(s[i]) then i else WordEnd(s, i + 1)
  }

  /** No whitespace lies between `i` and the end of the word that starts there. */
  lemma {:induction false} WordEndNoSpace(s: string, i: nat)
    requires i <= |s|
    ensures forall k :: i <= k < WordEnd(s, i) ==> !IsSpace(s[k])
    decreases |s| - i
  {
    if i < |s| && !IsSpace(s[i]) {
      WordEndNoSpace(s, i + 1);
    }
  }

  /** `s.split()`: the maximal runs of non-whitespace characters, in order. */
  function Words(s: string): seq<string>
    decreases |s|
  {
    if |s| == 0 then []
    else if IsSpace(s[0]) then Words(s[1..])
    else
      var j := WordEnd(s, 1);
      [s[..j]] + Words(s[j..])
  }

  /** Every piece `str.split()` produces is a word. */
  lemma {:induction false} WordsAreWords(s: string)
    ensures AllWords(Words(s))
    decreases |s|
  {
    if |s| > 0 {
      if IsSpace(s[0]) {
        WordsAreWords(s[1..]);
      } else {
        var j := WordEnd(s, 1);
        WordEndNoSpace(s, 1);
        WordsAreWords(s[j..]);
        assert IsWord(s[..j]);
      }
    }
  }

  /** `" ".join(ws)`. */
  function Join(ws: seq<string>): string {
    if |ws| == 0 then ""
    else if |ws| == 1 then ws[0]
    else ws[0] + " " + Join(ws[1..])
  }

  /** Splitting a string that starts with a whole word `w` yields `w` first. */
  lemma {:induction false} WordsOfWordThen(w: string, rest: string)
    requires IsWord(w)
    requires rest == [] || IsSpace(rest[0])
    ensures Words(w + rest) == [w] + Words(rest)
  {
    var s := w + rest;
    assert s[0] == w[0];
    WordEndAt(s, 1, |w|);
    assert s[..|w|] == w;
    assert s[|w|..] == rest;
  }

  lemma {:induction false} WordEndAt(s: string, i: nat, j: nat)
    requires i <= j <= |s|
    requires forall k :: i <= k < j ==> !IsSpace(s[k])
    requires j == |s| || IsSpace(s[j])
    ensures WordEnd(s, i) == j
    decreases j - i
  {
    if i < j {
      WordEndAt(s, i + 1, j);
    }
  }

  /** Joining words with single spaces and splitting again gives the same words back. */
  lemma WordsOfJoin(ws: seq<string>)
    requires AllWords(ws)
    ensures Words(Join(ws)) == ws
  {
    if |ws| > 0 {
      WordsOfJoinThen(ws, "");
      assert Join(ws) + "" == Join(ws);
    }
  }

  /** The same, when the joined words are followed by text that starts with whitespace. */
  lemma {:induction false} WordsOfJoinThen(ws: seq<string>, tail: string)
    requires AllWords(ws) && |ws| > 0
    requires tail == [] || IsSpace(tail[0])
    ensures Words(Join(ws) + tail) == ws + Words(tail)
  {
    if |ws| == 1 {
      WordsOfWordThen(ws[0], tail);
    } else {
      var more := Join(ws[1..]) + tail;
      JoinThen(ws, tail);
      WordsOfWordThen(ws[0], " " + more);
      WordsAfterSpace(more);
      WordsOfJoinThen(ws[1..], tail);
      calc {
        Words(Join(ws) + tail);
        [ws[0]] + (ws[1..] + Words(tail));
        { assert ws == [ws[0]] + ws[1..]; }
        ws + Words(tail);
      }
    }
  }

  /** Two or more joined words, followed by `tail`: the first word, a space, and the rest. */
  lemma JoinThen(ws: seq<string>, tail: string)
    requires |ws| >= 2
    ensures Join(ws) + tail == ws[0] + (" " + (Join(ws[1..]) + tail))
  {
    var w, j := ws[0], Join(ws[1..]);
    calc {
      Join(ws) + tail;
      (w + " " + j) + tail;
      { AppendAssoc(w + " ", j, tail); }
      (w + " ") + (j + tail);
      { AppendAssoc(w, " ", j + tail); }
      w + (" " + (j + tail));
    }
  }

  lemma AppendAssoc(a: string, b: string, c: string)
    ensures (a + b) + c == a + (b + c)
  {
  }

  /** Leading whitespace is skipped. */
  lemma WordsAfterSpace(s: string)
    ensures Words(" " + s) == Words(s)
  {
    assert (" " + s)[1..] == s;
  }

  /** Words surrounded by single spaces, as between `{%` and `%}`, split back into themselves. */
  lemma WordsOfPadded(ws: seq<string>)
    requires AllWords(ws)
    ensures Words(" " + Join(ws) + " ") == ws
  {
    WordsAfterSpace(Join(ws) + " ");
    assert " " + Join(ws) + " " == " " + (Join(ws) + " ");
    if |ws| > 0 {
      WordsOfJoinThen(ws, " ");
      assert Words(" ") == [];
    } else {
      assert Words(" ") == [];
    }
  }

  /** `str.lower()` on one character: only `A`-`Z` change. */
  function LowerChar(c: char): char {
    if 'A' <= c <= 'Z' then (c as int + 32) as char else c
  }

  /** `str.lower()`. */
  function Lower(s: string): (r: string)
    ensures |r| == |s|
  {
    seq(|s|, k requires 0 <= k < |s| => LowerChar(s[k]))
  }

  function LowerAll(ws: seq<string>): (r: seq<string>)
    ensures |r| == |ws|
  {
    seq(|ws|, k requires 0 <= k < |ws| => Lower(ws[k]))
  }

  /** A string without upper-case letters is its own lower case. */
  lemma LowerOfLower(s: string)
    requires forall k :: 0 <= k < |s| ==> !('A' <= s[k] <= 'Z')
    ensures Lower(s) == s
  {
  }

  /** Lowering a string changes no whitespace, so it splits into the lowered words. */
  lemma {:induction false} WordsOfLower(s: string)
    ensures Words(Lower(s)) == LowerAll(Words(s))
    decreases |s|
  {
    var l := Lower(s);
    if |s| > 0 {
      assert l[0] == LowerChar(s[0]);
      if IsSpace(s[0]) {
        assert l[1..] == Lower(s[1..]);
        WordsOfLower(s[1..]);
      } else {
        var j := WordEnd(s, 1);
        WordEndNoSpace(s, 1);
        WordEndAt(l, 1, j);
        assert l[..j] == Lower(s[..j]);
        assert l[j..] == Lower(s[j..]);
        WordsOfLower(s[j..]);
      }
    }
  }

  /** `w.isdigit()` for ASCII. */
  predicate IsDigits(w: string) {
    |w| > 0 && forall k :: 0 <= k < |w| ==> '0' <= w[k] <= '9'
  }

  function Pow10(n: nat): (r: nat)
    ensures r >= 1
  {
    if n == 0 then 1 else 10 * Pow10(n - 1)
  }

  /** `int(w)` for a string of decimal digits: a number of at most `|w|` digits. */
  function DigitsValue(w: string): (r: int)
    ensures (forall k :: 0 <= k < |w| ==> '0' <= w[k] <= '9') ==> 0 <= r < Pow10(|w|)
    decreases |w|
  {
    if |w| == 0 then 0
    else 10 * DigitsValue(w[..|w| - 1]) + (w[|w| - 1] as int - '0' as int)
  }
}
