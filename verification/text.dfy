/** String helpers that follow Python's `str` methods, restricted to ASCII:
    `isspace`, `upper`, `strip`, `startswith`, `in`, `split()` and `join`.
    They are shared by the validator, the sanitiser and the schema renderers. */
module Text {

  /** Python's `str.isspace()` on ASCII: space, the controls `\t` .. `\r`
      and the separators `\x1c` .. `\x1f`; also what the regex class `\s` matches. */
  predicate IsSpace(c: char) {
    c == ' ' || ('\t' <= c <= '\r') || ('\U{1C}' <= c <= '\U{1F}')
  }

  /** The regex class `\w` on ASCII. */
  predicate IsWordChar(c: char) {
    ('a' <= c <= 'z') || ('A' <= c <= 'Z') || ('0' <= c <= '9') || c == '_'
  }

  /** `c.upper()` for an ASCII character; every other character is left alone. */
  function UpperChar(c: char): (u: char)
    ensures IsSpace(u) <==> IsSpace(c)
    ensures IsWordChar(u) <==> IsWordChar(c)
    ensures !('a' <= u <= 'z')
  {
    if 'a' <= c <= 'z' then (c as int - 32) as char else c
  }

  /** `s.upper()`. */
  function Upper(s: string): string {
    seq(|s|, i requires 0 <= i < |s| => UpperChar(s[i]))
  }

  predicate AllSpace(s: string) {
    forall k | 0 <= k < |s| :: IsSpace(s[k])
  }

  predicate NoSpace(s: string) {
    forall k | 0 <= k < |s| :: !IsSpace(s[k])
  }

  /** The end of the whitespace run that starts at `i`: what a greedy `\s*` consumes. */
  function SkipSpaces(s: string, i: nat): (j: nat)
    requires i <= |s|
    ensures i <= j <= |s|
    ensures forall k | i <= k < j :: IsSpace(s[k])
    ensures j == |s| || !IsSpace(s[j])
    decreases |s| - i
  {
    if i < |s| && IsSpace(s[i]) then SkipSpaces(s, i + 1) else i
  }

  /** The end of the word run that starts at `i`: what a greedy `\w*` consumes. */
  function WordEnd(s: string, i: nat): (j: nat)
    requires i <= |s|
    ensures i <= j <= |s|
    ensures forall k | i <= k < j :: IsWordChar(s[k])
    ensures j == |s| || !IsWordChar(s[j])
    decreases |s| - i
  {
    if i < |s| && IsWordChar(s[i]) then WordEnd(s, i + 1) else i
  }

  /** `s.lstrip()`. */
  function LStrip(s: string): string {
    s[SkipSpaces(s, 0)..]
  }

  /** `s.rstrip()`. */
  function RStrip(s: string): (r: string)
    ensures |r| <= |s| && r == s[..|r|]
    ensures AllSpace(s[|r|..])
    ensures r == [] || !IsSpace(r[|r| - 1])
    ensures forall k | 0 <= k < |s| && !IsSpace(s[k]) :: k < |r|
  {
    if |s| > 0 && IsSpace(s[|s| - 1]) then
      var r := RStrip(s[..|s| - 1]);
      assert s[..|s| - 1][..|r|] == s[..|r|];
      assert s[|r|..] == s[..|s| - 1][|r|..] + [s[|s| - 1]];
      r
    else s
  }

  /** `s.strip()`. */
  function Strip(s: string): string {
    RStrip(LStrip(s))
  }

  /** `strip` removes exactly the whitespace at both ends: `s` is the
      leading whitespace, then `Strip(s)`, then only whitespace, and what is
      left begins and ends with non-whitespace. */
  lemma {:induction false} StripShape(s: string)
    ensures Strip(s) == [] || (!IsSpace(Strip(s)[0]) && !IsSpace(Strip(s)[|Strip(s)| - 1]))
    ensures AllSpace(s[..SkipSpaces(s, 0)])
    ensures OccursAt(s, Strip(s), SkipSpaces(s, 0))
    ensures AllSpace(s[SkipSpaces(s, 0) + |Strip(s)|..])
  {
    var n := SkipSpaces(s, 0);
    var l := LStrip(s);
    var r := Strip(s);
    if r != [] {
      assert r[0] == l[0] == s[n];
    }
    assert s[n..n + |r|] == l[..|r|];
    assert s[n + |r|..] == l[|r|..];
  }

  /** Partner of `StripShape`: any split of `s` into whitespace, a text
      with non-whitespace ends, and whitespace has `Strip(s)` as its middle. */
  lemma {:induction false} StripUnique(s: string, a: string, r: string, b: string)
    requires s == a + r + b && AllSpace(a) && AllSpace(b)
    requires r == [] || (!IsSpace(r[0]) && !IsSpace(r[|r| - 1]))
    ensures Strip(s) == r
  {
    StripShape(s);
    var n := SkipSpaces(s, 0);
    var t := Strip(s);
    if r == [] {
      assert AllSpace(s) by {
        forall k | 0 <= k < |s| ensures IsSpace(s[k]) {
          if k < |a| { assert s[k] == a[k]; } else { assert s[k] == b[k - |a|]; }
        }
      }
      if t != [] {
        assert false;
      }
    } else {
      assert s[|a|] == r[0];
      assert n == |a| by {
        if n < |a| {
          assert false;
        }
      }
      assert t != [] by {
        if t == [] {
          assert false;
        }
      }
      assert s[n + |t| - 1] == t[|t| - 1];
      assert s[n + |r| - 1] == r[|r| - 1];
      if |t| < |r| {
        assert false;
      } else if |r| < |t| {
        assert false;
      }
      assert t == s[n..n + |r|] == r;
    }
  }

  /** `s.startswith(p)`. */
  predicate StartsWith(s: string, p: string) {
    |p| <= |s| && s[..|p|] == p
  }

  /** `p in s` for strings. */
  predicate Contains(s: string, p: string) {
    exists i | 0 <= i <= |s| :: OccursAt(s, p, i)
  }

  /** `p` occurs in `s` starting at index `i`. */
  predicate OccursAt(s: string, p: string, i: nat) {
    i + |p| <= |s| && s[i..i + |p|] == p
  }

  /** The characters of `s` from `i` on spell `lit`, ignoring ASCII case:
      one literal piece of a pattern compiled with `re.IGNORECASE`. */
  predicate MatchCI(s: string, i: nat, lit: string)
    ensures MatchCI(s, i, lit) ==> i + |lit| <= |s|
    decreases |lit|
  {
    if |lit| == 0 then i <= |s|
    else i < |s| && UpperChar(s[i]) == UpperChar(lit[0]) && MatchCI(s, i + 1, lit[1..])
  }

  /** `MatchCI` compares the characters one by one. */
  lemma {:induction false} MatchCIChars(s: string, i: nat, lit: string)
    ensures MatchCI(s, i, lit) <==>
      i + |lit| <= |s| && forall k | 0 <= k < |lit| :: UpperChar(s[i + k]) == UpperChar(lit[k])
    decreases |lit|
  {
    if |lit| > 0 {
      MatchCIChars(s, i + 1, lit[1..]);
      if i + |lit| <= |s| && forall k | 0 <= k < |lit| :: UpperChar(s[i + k]) == UpperChar(lit[k]) {
        assert forall k | 0 <= k < |lit| - 1 :: UpperChar(s[i + 1 + k]) == UpperChar(lit[1..][k]) by {
          forall k | 0 <= k < |lit| - 1
            ensures UpperChar(s[i + 1 + k]) == UpperChar(lit[1..][k])
          {
            assert lit[1..][k] == lit[k + 1];
          }
        }
      }
    }
  }

  /** `SkipSpaces` stops at the first non-whitespace character after a run. */
  lemma {:induction false} SkipSpacesTo(s: string, i: nat, j: nat)
    requires i <= j < |s|
    requires forall k | i <= k < j :: IsSpace(s[k])
    requires !IsSpace(s[j])
    ensures SkipSpaces(s, i) == j
    decreases j - i
  {
    if i < j {
      SkipSpacesTo(s, i + 1, j);
    }
  }

  /** A literal that matches a piece of text still matches it inside a longer text. */
  lemma {:induction false} MatchCIInContext(before: string, piece: string, after: string, lit: string)
    requires MatchCI(piece, 0, lit)
    ensures MatchCI(before + piece + after, |before|, lit)
  {
    var s := before + piece + after;
    MatchCIChars(piece, 0, lit);
    MatchCIChars(s, |before|, lit);
    assert forall k | 0 <= k < |piece| :: s[|before| + k] == piece[k];
  }

  /** `s.split()` with no separator: the maximal runs of non-whitespace, in order. */
  function Words(s: string): (ws: seq<string>)
    ensures forall w | w in ws :: Token(w)
    decreases |s|
  {
    if |s| == 0 then []
    else if IsSpace(s[0]) then Words(s[1..])
    else
      var n := SkipNonSpace(s, 0);
      [s[..n]] + Words(s[n..])
  }

  /** The end of the non-whitespace run that starts at `i`. */
  function SkipNonSpace(s: string, i: nat): (j: nat)
    requires i <= |s|
    ensures i <= j <= |s|
    ensures forall k | i <= k < j :: !IsSpace(s[k])
    ensures j == |s| || IsSpace(s[j])
    decreases |s| - i
  {
    if i < |s| && !IsSpace(s[i]) then SkipNonSpace(s, i + 1) else i
  }

  /** `sep.join(ws)`. */
  function Join(sep: string, ws: seq<string>): string
    decreases |ws|
  {
    if |ws| == 0 then ""
    else if |ws| == 1 then ws[0]
    else ws[0] + sep + Join(sep, ws[1..])
  }

  /** `"".join(ws)`. */
  function Concat(ws: seq<string>): string
    decreases |ws|
  {
    if |ws| == 0 then "" else ws[0] + Concat(ws[1..])
  }

  /** Decimal text of an integer, as Python's `str(int)` writes it. */
  function IntToString(n: int): (r: string)
    ensures |r| > 0
    ensures forall k | 0 <= k < |r| :: r[k] == '-' || '0' <= r[k] <= '9'
    decreases if n < 0 then 1 - n else n
  {
    if n < 0 then "-" + IntToString(-n)
    else if n < 10 then [DigitChar(n)]
    else IntToString(n / 10) + [DigitChar(n % 10)]
  }

  function DigitChar(d: int): (c: char)
    requires 0 <= d < 10
    ensures '0' <= c <= '9'
  {
    ('0' as int + d) as char
  }

  /** The first line break at or after `i`, or the end of the text: where
      `.*` stops (`.` does not match a newline without `re.DOTALL`), and
      where `str.split("\n")` cuts. */
  function LineEnd(s: string, i: nat): (j: nat)
    requires i <= |s|
    ensures i <= j <= |s|
    ensures forall k | i <= k < j :: s[k] != '\n'
    ensures j == |s| || s[j] == '\n'
    decreases |s| - i
  {
    if i < |s| && s[i] != '\n' then LineEnd(s, i + 1) else i
  }

  lemma {:induction false} LineEndAt(s: string, i: nat, j: nat)
    requires i <= j <= |s|
    requires forall k | i <= k < j :: s[k] != '\n'
    requires j == |s| || s[j] == '\n'
    ensures LineEnd(s, i) == j
    decreases j - i
  {
    if i < j {
      LineEndAt(s, i + 1, j);
    }
  }

  /** `s.split("\n")`: the pieces between line breaks, empty ones included. */
  function SplitLines(s: string): (ls: seq<string>)
    ensures |ls| > 0
    ensures forall l | l in ls :: '\n' !in l
    decreases |s|
  {
    var n := LineEnd(s, 0);
    if n == |s| then [s]
    else [s[..n]] + SplitLines(s[n + 1..])
  }

  /** Every line followed by a line break: what a loop of `+= f"...\n"` builds. */
  function Unlines(ls: seq<string>): string
    decreases |ls|
  {
    if |ls| == 0 then "" else ls[0] + "\n" + Unlines(ls[1..])
  }

  lemma {:induction false} UnlinesAppend(a: seq<string>, b: seq<string>)
    ensures Unlines(a + b) == Unlines(a) + Unlines(b)
    decreases |a|
  {
    if |a| > 0 {
      assert (a + b)[1..] == a[1..] + b;
      UnlinesAppend(a[1..], b);
    } else {
      assert a + b == b;
    }
  }

  /** Splitting text built line by line gives the lines back, and the empty
      piece after the last line break. */
  lemma {:induction false} SplitUnlines(ls: seq<string>)
    requires forall l | l in ls :: '\n' !in l
    ensures SplitLines(Unlines(ls)) == ls + [""]
    decreases |ls|
  {
    if |ls| == 0 {
      assert LineEnd("", 0) == 0;
    } else {
      assert ls[0] in ls;
      SplitLineThen(ls[0], Unlines(ls[1..]));
      assert forall m | m in ls[1..] :: m in ls;
      SplitUnlines(ls[1..]);
      assert ls == [ls[0]] + ls[1..];
    }
  }

  /** A line and its break come off the front of the text as one piece. */
  lemma {:induction false} SplitLineThen(l: string, rest: string)
    requires '\n' !in l
    ensures SplitLines(l + "\n" + rest) == [l] + SplitLines(rest)
  {
    var s := l + "\n" + rest;
    assert forall k | 0 <= k < |l| :: s[k] == l[k] && l[k] in l;
    LineEndAt(s, 0, |l|);
    assert s[..|l|] == l;
    assert s[|l| + 1..] == rest;
  }

  lemma {:induction false} WordsAfterSpace(rest: string)
    ensures Words(" " + rest) == Words(rest)
  {
    assert (" " + rest)[1..] == rest;
  }

  /** A name or type the reader can take as one word. */
  predicate Token(s: string) {
    |s| > 0 && NoSpace(s)
  }

  /** `split` after `' '.join` gives back the words. */
  lemma {:induction false} JoinWords(ws: seq<string>)
    requires forall w | w in ws :: Token(w)
    ensures Words(Join(" ", ws)) == ws
    decreases |ws|
  {
    if |ws| == 1 {
      WordsOfToken(ws[0]);
    } else if |ws| > 1 {
      var rest := Join(" ", ws[1..]);
      assert forall w | w in ws[1..] :: w in ws;
      JoinWords(ws[1..]);
      assert ws[0] in ws;
      WordsSpaced(ws[0], rest);
    }
  }

  lemma {:induction false} WordsSpaced(w: string, t: string)
    requires Token(w)
    ensures Words(w + " " + t) == [w] + Words(t)
  {
    WordsOfWordThen(w, " " + t);
    WordsAfterSpace(t);
    assert w + " " + t == w + (" " + t);
  }

  /** A single space between two texts adds no word and merges none:
      `(a + " " + b).split() == a.split() + b.split()`. */
  lemma {:induction false} WordsAround(a: string, b: string)
    ensures Words(a + " " + b) == Words(a) + Words(b)
    decreases |a|
  {
    var s := a + " " + b;
    if |a| == 0 {
      assert s == " " + b;
      WordsAfterSpace(b);
    } else if IsSpace(a[0]) {
      assert s[1..] == a[1..] + " " + b;
      WordsAround(a[1..], b);
    } else {
      var n := SkipNonSpace(a, 0);
      SkipNonSpaceTo(s, 0, n);
      assert s[..n] == a[..n];
      assert s[n..] == a[n..] + " " + b;
      WordsAround(a[n..], b);
    }
  }

  lemma {:induction false} WordsOfToken(w: string)
    requires Token(w)
    ensures Words(w) == [w]
  {
    WordsOfWordThen(w, []);
    assert w + [] == w;
  }

  /** The words of a text that opens with a word and then whitespace. */
  lemma {:induction false} WordsOfWordThen(w: string, t: string)
    requires Token(w)
    requires t == [] || IsSpace(t[0])
    ensures Words(w + t) == [w] + Words(t)
  {
    var s := w + t;
    SkipNonSpaceTo(s, 0, |w|);
    assert s[..|w|] == w && s[|w|..] == t;
  }

  lemma {:induction false} SkipNonSpaceTo(s: string, i: nat, j: nat)
    requires i <= j <= |s|
    requires forall k | i <= k < j :: !IsSpace(s[k])
    requires j == |s| || IsSpace(s[j])
    ensures SkipNonSpace(s, i) == j
    decreases j - i
  {
    if i < j {
      SkipNonSpaceTo(s, i + 1, j);
    }
  }
}
