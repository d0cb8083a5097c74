/** The injection scan of `SQLValidator._is_potential_injection`
    (src/sql_validator.py:27-45): ten regular expressions, searched
    case-insensitively in the raw query text.

    There is no regex engine here. Each pattern is a matcher written by hand
    over ASCII: a literal piece is matched ignoring case (`MatchCI`), `\s*`
    takes the whole whitespace run (`SkipSpaces`), `\s+` takes a non-empty
    run, and `\b` is a change between word and non-word characters. Where the
    next piece of a pattern cannot start with the character class being
    repeated, the greedy run is the only one that can succeed, so taking it is
    exact; the one place where backtracking matters (`\w+\s*where`) is written
    as a choice of where the word run stops. */
module Injection {
  import opened Options
  import opened Text

  /** The ten patterns, in the order the source lists them. */
  datatype Pattern =
    | DropChain          // ;\s*drop\s+
    | DeleteTautology    // ;\s*delete\s+from\s+\w+\s*where\s+1\s*=\s*1
    | TruncateChain      // ;\s*truncate\s+
    | ExecChain          // ;\s*exec\s*\(
    | CmdShellChain      // ;\s*xp_cmdshell
    | UnionChain         // ;\s*union\s+select
    | TrailingComment    // --\s*$
    | EmptyBlockComment  // /\*\s*\*/
    | OrTautology        // \bor\s+1\s*=\s*1\b
    | WaitforDelay       // \bwaitfor\s+delay\b

  const Patterns: seq<Pattern> := [
    DropChain, DeleteTautology, TruncateChain, ExecChain, CmdShellChain,
    UnionChain, TrailingComment, EmptyBlockComment, OrTautology, WaitforDelay
  ]

  /** A literal piece, ignoring case; the result is where the match ends. */
  function Lit(s: string, i: nat, lit: string): (r: Option<nat>)
    requires i <= |s|
    ensures r.Some? <==> MatchCI(s, i, lit)
    ensures r.Some? ==> r.value == i + |lit| <= |s|
  {
    if MatchCI(s, i, lit) then Some(i + |lit|) else None
  }

  /** `\s+`: at least one whitespace character, then the rest of the run. */
  function Spaces1(s: string, i: nat): (r: Option<nat>)
    requires i <= |s|
    ensures r.Some? <==> i < |s| && IsSpace(s[i])
    ensures r.Some? ==> i < r.value <= |s|
  {
    if i < |s| && IsSpace(s[i]) then Some(SkipSpaces(s, i)) else None
  }

  /** `\b`: exactly one of the characters either side of `i` is a word character
      (outside the text counts as a non-word character). */
  predicate Boundary(s: string, i: nat)
    requires i <= |s|
  {
    (i > 0 && IsWordChar(s[i - 1])) != (i < |s| && IsWordChar(s[i]))
  }

  /** `;\s*kw`: a statement separator, optional whitespace, then the keyword. */
  function Chained(s: string, i: nat, kw: string): (r: Option<nat>)
    requires i <= |s|
    ensures r.Some? ==> i < r.value <= |s|
  {
    if MatchCI(s, i, ";") then Lit(s, SkipSpaces(s, i + 1), kw) else None
  }

  /** `1\s*=\s*1`, starting at `i`. */
  function OneEqualsOne(s: string, i: nat): (r: Option<nat>)
    requires i <= |s|
    ensures r.Some? ==> i < r.value <= |s|
  {
    match Lit(s, i, "1")
    case None => None
    case Some(a) =>
      match Lit(s, SkipSpaces(s, a), "=")
      case None => None
      case Some(b) => Lit(s, SkipSpaces(s, b), "1")
  }

  /** `where\s+1\s*=\s*1`, starting at `i`. */
  function WhereTautology(s: string, i: nat): (r: Option<nat>)
    requires i <= |s|
    ensures r.Some? ==> i < r.value <= |s|
  {
    if MatchCI(s, i, "where") && i + 5 < |s| && IsSpace(s[i + 5])
    then OneEqualsOne(s, SkipSpaces(s, i + 5))
    else None
  }

  /** `\w+\s*where\s+1\s*=\s*1`, starting at `i`. The word run may stop at any
      point `m` after its first character: either at the end of the run,
      followed by optional whitespace, or inside it, where `where` itself
      continues the run. */
  predicate WordThenWhere(s: string, i: nat)
    requires i <= |s|
  {
    i < |s| && IsWordChar(s[i]) &&
    exists m | i < m <= WordEnd(s, i) :: WhereTautology(s, SkipSpaces(s, m)).Some?
  }

  /** `;\s*delete\s+from\s+`, followed by `WordThenWhere`. */
  predicate DeleteTautologyAt(s: string, i: nat)
    requires i <= |s|
  {
    match Chained(s, i, "delete")
    case None => false
    case Some(a) =>
      match Spaces1(s, a)
      case None => false
      case Some(b) =>
        match Lit(s, b, "from")
        case None => false
        case Some(c) =>
          match Spaces1(s, c)
          case None => false
          case Some(d) => WordThenWhere(s, d)
  }

  /** `;\s*kw1\s+kw2`. */
  predicate ChainedPair(s: string, i: nat, kw1: string, kw2: string)
    requires i <= |s|
  {
    match Chained(s, i, kw1)
    case None => false
    case Some(a) =>
      match Spaces1(s, a)
      case None => false
      case Some(b) => Lit(s, b, kw2).Some?
  }

  /** `;\s*kw\s+`. */
  predicate ChainedThenSpace(s: string, i: nat, kw: string)
    requires i <= |s|
  {
    match Chained(s, i, kw)
    case None => false
    case Some(a) => Spaces1(s, a).Some?
  }

  /** `;\s*exec\s*\(`. */
  predicate ExecCallAt(s: string, i: nat)
    requires i <= |s|
  {
    match Chained(s, i, "exec")
    case None => false
    case Some(a) => Lit(s, SkipSpaces(s, a), "(").Some?
  }

  /** `--\s*$` without the MULTILINE flag: `$` is the end of the text (or just
      before a final newline, which `\s*` could consume anyway), so the rest
      of the text after `--` must be whitespace. */
  predicate TrailingCommentAt(s: string, i: nat)
    requires i <= |s|
  {
    match Lit(s, i, "--")
    case None => false
    case Some(a) => SkipSpaces(s, a) == |s|
  }

  /** `/\*\s*\*\/`. */
  predicate EmptyBlockCommentAt(s: string, i: nat)
    requires i <= |s|
  {
    match Lit(s, i, "/*")
    case None => false
    case Some(a) => Lit(s, SkipSpaces(s, a), "*/").Some?
  }

  /** `\bor\s+1\s*=\s*1\b`. */
  predicate OrTautologyAt(s: string, i: nat)
    requires i <= |s|
  {
    Boundary(s, i) &&
    match Lit(s, i, "or")
    case None => false
    case Some(a) =>
      match Spaces1(s, a)
      case None => false
      case Some(b) =>
        match OneEqualsOne(s, b)
        case None => false
        case Some(c) => Boundary(s, c)
  }

  /** `\bwaitfor\s+delay\b`. */
  predicate WaitforDelayAt(s: string, i: nat)
    requires i <= |s|
  {
    Boundary(s, i) &&
    match Lit(s, i, "waitfor")
    case None => false
    case Some(a) =>
      match Spaces1(s, a)
      case None => false
      case Some(b) =>
        match Lit(s, b, "delay")
        case None => false
        case Some(c) => Boundary(s, c)
  }

  /** Pattern `p` matches the text starting at index `i`. */
  predicate MatchesAt(p: Pattern, s: string, i: nat)
    requires i <= |s|
  {
    match p
    case DropChain => ChainedThenSpace(s, i, "drop")
    case DeleteTautology => DeleteTautologyAt(s, i)
    case TruncateChain => ChainedThenSpace(s, i, "truncate")
    case ExecChain => ExecCallAt(s, i)
    case CmdShellChain => Chained(s, i, "xp_cmdshell").Some?
    case UnionChain => ChainedPair(s, i, "union", "select")
    case TrailingComment => TrailingCommentAt(s, i)
    case EmptyBlockComment => EmptyBlockCommentAt(s, i)
    case OrTautology => OrTautologyAt(s, i)
    case WaitforDelay => WaitforDelayAt(s, i)
  }

  /** `re.search(p, s, re.IGNORECASE)` finds a match. */
  predicate Search(p: Pattern, s: string) {
    exists i | 0 <= i <= |s| :: MatchesAt(p, s, i)
  }

  /** Some listed pattern is found anywhere in the raw text. */
  predicate IsPotentialInjection(s: string) {
    exists k | 0 <= k < |Patterns| :: Search(Patterns[k], s)
  }

  /** `re.search(p, s, re.IGNORECASE)`: try each start position, left to right. */
  method SearchPattern(p: Pattern, s: string) returns (found: bool)
    ensures found <==> Search(p, s)
  {
    var i := 0;
    while i <= |s|
      invariant 0 <= i <= |s| + 1
      invariant forall j | 0 <= j < i :: !MatchesAt(p, s, j)
    {
      if MatchesAt(p, s, i) {
        return true;
      }
      i := i + 1;
    }
    return false;
  }

  /** The scan as the source runs it: patterns in list order, returning at
      the first one that is found. */
  method ScanForInjection(s: string) returns (found: bool)
    ensures found <==> IsPotentialInjection(s)
  {
    var k := 0;
    while k < |Patterns|
      invariant 0 <= k <= |Patterns|
      invariant forall j | 0 <= j < k :: !Search(Patterns[j], s)
    {
      found := SearchPattern(Patterns[k], s);
      if found {
        return;
      }
      k := k + 1;
    }
    found := false;
  }

  /** Every match starts at a `;`, `-` or `/`, or at the word-initial `o` or `w`
      of `or` / `waitfor`, in either case. */
  lemma {:induction false} MatchStart(p: Pattern, s: string, i: nat)
    requires i <= |s|
    requires MatchesAt(p, s, i)
    ensures i < |s|
    ensures s[i] == ';' || s[i] == '-' || s[i] == '/'
            || ((UpperChar(s[i]) == 'O' || UpperChar(s[i]) == 'W') && (i == 0 || !IsWordChar(s[i - 1])))
  {
    match p
    case DropChain => ChainedStart(s, i, "drop");
    case DeleteTautology => ChainedStart(s, i, "delete");
    case TruncateChain => ChainedStart(s, i, "truncate");
    case ExecChain => ChainedStart(s, i, "exec");
    case CmdShellChain => ChainedStart(s, i, "xp_cmdshell");
    case UnionChain => ChainedStart(s, i, "union");
    case TrailingComment => LitStart(s, i, "--");
    case EmptyBlockComment => LitStart(s, i, "/*");
    case OrTautology => LitStart(s, i, "or");
    case WaitforDelay => LitStart(s, i, "waitfor");
  }

  /** A `;`-chained match starts at the `;`. */
  lemma {:induction false} ChainedStart(s: string, i: nat, kw: string)
    requires i <= |s| && Chained(s, i, kw).Some?
    ensures i < |s| && s[i] == ';'
  {
    MatchCIChars(s, i, ";");
    assert UpperChar(s[i]) == UpperChar(';');
  }

  /** A literal match starts with the literal's first character, in either case. */
  lemma {:induction false} LitStart(s: string, i: nat, lit: string)
    requires i <= |s| && |lit| > 0 && Lit(s, i, lit).Some?
    ensures i < |s| && UpperChar(s[i]) == UpperChar(lit[0])
  {
    MatchCIChars(s, i, lit);
  }

  /** The first-character condition of `MatchStart`. */
  predicate CanStartMatch(s: string, i: nat)
    requires i < |s|
  {
    s[i] == ';' || s[i] == '-' || s[i] == '/'
    || ((UpperChar(s[i]) == 'O' || UpperChar(s[i]) == 'W') && (i == 0 || !IsWordChar(s[i - 1])))
  }

  /** No position from `i` on satisfies the first-character condition. */
  predicate NoMatchStartFrom(s: string, i: nat)
    decreases |s| - i
  {
    i >= |s| || (!CanStartMatch(s, i) && NoMatchStartFrom(s, i + 1))
  }

  lemma {:induction false} NoMatchStartAt(s: string, i: nat, j: nat)
    requires NoMatchStartFrom(s, i)
    requires i <= j < |s|
    ensures !CanStartMatch(s, j)
    decreases j - i
  {
    if i < j {
      NoMatchStartAt(s, i + 1, j);
    }
  }

  /** Text without a `;`, `-`, `/` or a word-initial `o` / `w` is never flagged. */
  lemma {:induction false} CleanTextNotFlagged(s: string)
    requires NoMatchStartFrom(s, 0)
    ensures !IsPotentialInjection(s)
  {
    forall p: Pattern, j: nat | j <= |s| && MatchesAt(p, s, j)
      ensures false
    {
      MatchStart(p, s, j);
      NoMatchStartAt(s, 0, j);
    }
  }

  /** A match of any listed pattern anywhere flags the text. */
  lemma {:induction false} FoundBy(k: nat, s: string, i: nat)
    requires k < |Patterns| && i <= |s| && MatchesAt(Patterns[k], s, i)
    ensures IsPotentialInjection(s)
  {
    assert Search(Patterns[k], s);
  }

  /** A word-bounded `or 1=1`, in any case, is flagged wherever it occurs,
      whatever the query begins with. */
  lemma {:induction false} OrTautologyFlagged(s: string, i: nat)
    requires MatchCI(s, i, "or 1=1")
    requires i == 0 || !IsWordChar(s[i - 1])
    requires i + 6 == |s| || !IsWordChar(s[i + 6])
    ensures IsPotentialInjection(s)
  {
    OrTautologyChars(s, i);
    assert SkipSpaces(s, i + 2) == i + 3 by { assert SkipSpaces(s, i + 3) == i + 3; }
    OneEqualsOneAt(s, i + 3);
    assert OrTautologyAt(s, i);
    FoundBy(8, s, i);
  }

  /** The characters of a case-blind `or 1=1`. */
  lemma {:induction false} OrTautologyChars(s: string, i: nat)
    requires MatchCI(s, i, "or 1=1")
    ensures i + 6 <= |s|
    ensures Lit(s, i, "or") == Some(i + 2) && IsWordChar(s[i])
    ensures IsSpace(s[i + 2]) && s[i + 3] == '1' && s[i + 4] == '=' && s[i + 5] == '1'
  {
    var lit := "or 1=1";
    MatchCIChars(s, i, lit);
    MatchCIChars(s, i, "or");
    assert UpperChar(s[i]) == UpperChar(lit[0]);
    assert UpperChar(s[i + 1]) == UpperChar(lit[1]);
    assert UpperChar(s[i + 2]) == UpperChar(lit[2]);
    assert UpperChar(s[i + 3]) == UpperChar(lit[3]);
    assert UpperChar(s[i + 4]) == UpperChar(lit[4]);
    assert UpperChar(s[i + 5]) == UpperChar(lit[5]);
  }

  /** `1=1` written without spaces. */
  lemma {:induction false} OneEqualsOneAt(s: string, j: nat)
    requires j + 3 <= |s| && s[j] == '1' && s[j + 1] == '=' && s[j + 2] == '1'
    ensures OneEqualsOne(s, j) == Some(j + 3)
  {
    MatchCIChars(s, j, "1");
    MatchCIChars(s, j + 1, "=");
    MatchCIChars(s, j + 2, "1");
    assert SkipSpaces(s, j + 1) == j + 1;
    assert SkipSpaces(s, j + 2) == j + 2;
  }

  /** A statement separator followed, after optional whitespace, by `drop`
      and whitespace is flagged, whatever the query begins with. */
  lemma {:induction false} DropChainFlagged(s: string, i: nat, j: nat)
    requires i < j <= |s| && s[i] == ';'
    requires forall k | i < k < j :: IsSpace(s[k])
    requires MatchCI(s, j, "drop")
    requires j + 4 < |s| && IsSpace(s[j + 4])
    ensures IsPotentialInjection(s)
  {
    assert MatchCI(s, i, ";");
    MatchCIChars(s, j, "drop");
    assert !IsSpace(s[j]) by { assert UpperChar(s[j]) == UpperChar("drop"[0]); }
    SkipSpacesTo(s, i + 1, j);
    assert ChainedThenSpace(s, i, "drop");
    FoundBy(0, s, i);
  }

  /** Upper-casing the text first changes nothing: the scan ignores case. */
  lemma {:induction false} ScanIgnoresCase(s: string)
    ensures IsPotentialInjection(Upper(s)) <==> IsPotentialInjection(s)
  {
    var u := Upper(s);
    forall p: Pattern, i: nat | i <= |s|
      ensures MatchesAt(p, u, i) <==> MatchesAt(p, s, i)
    {
      UpperSameMatches(p, s, i);
    }
    assert forall p: Pattern :: Search(p, u) <==> Search(p, s);
  }

  lemma {:induction false} UpperCharIdempotent(c: char)
    ensures UpperChar(UpperChar(c)) == UpperChar(c)
  {
  }

  /** A literal piece matches `Upper(s)` exactly where it matches `s`. */
  lemma {:induction false} UpperSameLit(s: string, j: nat, lit: string)
    requires j <= |s|
    ensures MatchCI(Upper(s), j, lit) == MatchCI(s, j, lit)
    ensures Lit(Upper(s), j, lit) == Lit(s, j, lit)
  {
    var u := Upper(s);
    MatchCIChars(s, j, lit);
    MatchCIChars(u, j, lit);
    if j + |lit| <= |s| {
      forall k | 0 <= k < |lit|
        ensures UpperChar(u[j + k]) == UpperChar(lit[k]) <==> UpperChar(s[j + k]) == UpperChar(lit[k])
      {
        UpperCharIdempotent(s[j + k]);
      }
    }
  }

  /** Upper-casing keeps whitespace and word runs where they were. */
  lemma {:induction false} UpperSameRuns(s: string, j: nat)
    requires j <= |s|
    ensures SkipSpaces(Upper(s), j) == SkipSpaces(s, j)
    ensures WordEnd(Upper(s), j) == WordEnd(s, j)
    ensures Spaces1(Upper(s), j) == Spaces1(s, j)
    ensures Boundary(Upper(s), j) == Boundary(s, j)
    decreases |s| - j
  {
    if j < |s| {
      UpperSameRuns(s, j + 1);
    }
  }

  lemma {:induction false} UpperSameChained(s: string, j: nat, kw: string)
    requires j <= |s|
    ensures Chained(Upper(s), j, kw) == Chained(s, j, kw)
  {
    UpperSameLit(s, j, ";");
    if Lit(s, j, ";").Some? {
      UpperSameRuns(s, j + 1);
      UpperSameLit(s, SkipSpaces(s, j + 1), kw);
    }
  }

  lemma {:induction false} UpperSameOneEqualsOne(s: string, j: nat)
    requires j <= |s|
    ensures OneEqualsOne(Upper(s), j) == OneEqualsOne(s, j)
  {
    UpperSameLit(s, j, "1");
    var a := Lit(s, j, "1");
    if a.Some? {
      var b := SkipSpaces(s, a.value);
      UpperSameRuns(s, a.value);
      UpperSameLit(s, b, "=");
      var c := Lit(s, b, "=");
      if c.Some? {
        UpperSameRuns(s, c.value);
        UpperSameLit(s, SkipSpaces(s, c.value), "1");
      }
    }
  }

  lemma {:induction false} UpperSameWhereTautology(s: string, j: nat)
    requires j <= |s|
    ensures WhereTautology(Upper(s), j) == WhereTautology(s, j)
  {
    UpperSameLit(s, j, "where");
    if Lit(s, j, "where").Some? {
      UpperSameRuns(s, j + 5);
      var b := Spaces1(s, j + 5);
      if b.Some? {
        UpperSameOneEqualsOne(s, b.value);
      }
    }
  }

  lemma {:induction false} UpperSameWordThenWhere(s: string, j: nat)
    requires j <= |s|
    ensures WordThenWhere(Upper(s), j) == WordThenWhere(s, j)
  {
    var u := Upper(s);
    if j < |s| && IsWordChar(s[j]) {
      UpperSameRuns(s, j);
      forall m | j < m <= WordEnd(s, j)
        ensures WhereTautology(u, SkipSpaces(u, m)) == WhereTautology(s, SkipSpaces(s, m))
      {
        UpperSameRuns(s, m);
        UpperSameWhereTautology(s, SkipSpaces(s, m));
      }
    }
  }

  lemma {:induction false} UpperSameDelete(s: string, i: nat)
    requires i <= |s|
    ensures DeleteTautologyAt(Upper(s), i) == DeleteTautologyAt(s, i)
  {
    UpperSameChained(s, i, "delete");
    var c := Chained(s, i, "delete");
    if c.Some? {
      UpperSameRuns(s, c.value);
      var b := Spaces1(s, c.value);
      if b.Some? {
        UpperSameLit(s, b.value, "from");
        var f := Lit(s, b.value, "from");
        if f.Some? {
          UpperSameRuns(s, f.value);
          var d := Spaces1(s, f.value);
          if d.Some? {
            UpperSameWordThenWhere(s, d.value);
          }
        }
      }
    }
  }

  lemma {:induction false} UpperSameChainedThenSpace(s: string, i: nat, kw: string)
    requires i <= |s|
    ensures ChainedThenSpace(Upper(s), i, kw) == ChainedThenSpace(s, i, kw)
  {
    UpperSameChained(s, i, kw);
    var c := Chained(s, i, kw);
    if c.Some? { UpperSameRuns(s, c.value); }
  }

  lemma {:induction false} UpperSameChainedPair(s: string, i: nat, kw1: string, kw2: string)
    requires i <= |s|
    ensures ChainedPair(Upper(s), i, kw1, kw2) == ChainedPair(s, i, kw1, kw2)
  {
    UpperSameChained(s, i, kw1);
    var c := Chained(s, i, kw1);
    if c.Some? {
      UpperSameRuns(s, c.value);
      var b := Spaces1(s, c.value);
      if b.Some? { UpperSameLit(s, b.value, kw2); }
    }
  }

  lemma {:induction false} UpperSameExecCall(s: string, i: nat)
    requires i <= |s|
    ensures ExecCallAt(Upper(s), i) == ExecCallAt(s, i)
  {
    UpperSameChained(s, i, "exec");
    var c := Chained(s, i, "exec");
    if c.Some? {
      UpperSameRuns(s, c.value);
      UpperSameLit(s, SkipSpaces(s, c.value), "(");
    }
  }

  lemma {:induction false} UpperSameTrailingComment(s: string, i: nat)
    requires i <= |s|
    ensures TrailingCommentAt(Upper(s), i) == TrailingCommentAt(s, i)
  {
    UpperSameLit(s, i, "--");
    if Lit(s, i, "--").Some? { UpperSameRuns(s, i + 2); }
  }

  lemma {:induction false} UpperSameEmptyBlockComment(s: string, i: nat)
    requires i <= |s|
    ensures EmptyBlockCommentAt(Upper(s), i) == EmptyBlockCommentAt(s, i)
  {
    UpperSameLit(s, i, "/*");
    if Lit(s, i, "/*").Some? {
      UpperSameRuns(s, i + 2);
      UpperSameLit(s, SkipSpaces(s, i + 2), "*/");
    }
  }

  lemma {:induction false} UpperSameOrTautology(s: string, i: nat)
    requires i <= |s|
    ensures OrTautologyAt(Upper(s), i) == OrTautologyAt(s, i)
  {
    UpperSameRuns(s, i);
    UpperSameLit(s, i, "or");
    if Lit(s, i, "or").Some? {
      UpperSameRuns(s, i + 2);
      var b := Spaces1(s, i + 2);
      if b.Some? {
        UpperSameOneEqualsOne(s, b.value);
        var c := OneEqualsOne(s, b.value);
        if c.Some? { UpperSameRuns(s, c.value); }
      }
    }
  }

  lemma {:induction false} UpperSameWaitforDelay(s: string, i: nat)
    requires i <= |s|
    ensures WaitforDelayAt(Upper(s), i) == WaitforDelayAt(s, i)
  {
    UpperSameRuns(s, i);
    UpperSameLit(s, i, "waitfor");
    if Lit(s, i, "waitfor").Some? {
      UpperSameRuns(s, i + 7);
      var b := Spaces1(s, i + 7);
      if b.Some? {
        UpperSameLit(s, b.value, "delay");
        var c := Lit(s, b.value, "delay");
        if c.Some? { UpperSameRuns(s, c.value); }
      }
    }
  }

  /** Every pattern matches the upper-cased text exactly where it matches the text. */
  lemma {:induction false} UpperSameMatches(p: Pattern, s: string, i: nat)
    requires i <= |s|
    ensures MatchesAt(p, Upper(s), i) <==> MatchesAt(p, s, i)
  {
    match p
    case DropChain => UpperSameChainedThenSpace(s, i, "drop");
    case DeleteTautology => UpperSameDelete(s, i);
    case TruncateChain => UpperSameChainedThenSpace(s, i, "truncate");
    case ExecChain => UpperSameExecCall(s, i);
    case CmdShellChain => UpperSameChained(s, i, "xp_cmdshell");
    case UnionChain => UpperSameChainedPair(s, i, "union", "select");
    case TrailingComment => UpperSameTrailingComment(s, i);
    case EmptyBlockComment => UpperSameEmptyBlockComment(s, i);
    case OrTautology => UpperSameOrTautology(s, i);
    case WaitforDelay => UpperSameWaitforDelay(s, i);
  }
}
