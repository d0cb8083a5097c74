/** The static checks of `SQLValidator` (src/sql_validator.py): the keyword
    gate, the read-only classifier, and `validate_query`, which collects the
    reasons for rejecting a query into `(is_valid, errors)`.

    The syntax check runs `EXPLAIN` against a live database; here it is the
    parameter `syntaxOk`, about which nothing is assumed. */
module Validator {
  import opened Text
  import opened Injection

  /** The keywords `_contains_dangerous_operations` looks for, in its order. */
  const DangerousKeywords: seq<string> := [
    "DROP", "DELETE", "TRUNCATE", "ALTER", "CREATE", "INSERT",
    "UPDATE", "GRANT", "REVOKE", "EXEC", "EXECUTE"
  ]

  /** `_contains_dangerous_operations`: a query whose upper-cased, stripped
      text starts with `SELECT` passes outright; any other query is dangerous
      when one of the keywords occurs anywhere in its upper-cased text. */
  predicate ContainsDangerousOperations(s: string) {
    var u := Upper(s);
    !StartsWith(Strip(u), "SELECT") &&
    exists k | 0 <= k < |DangerousKeywords| :: Contains(u, DangerousKeywords[k])
  }

  /** `is_read_only_query`. */
  predicate IsReadOnly(s: string) {
    var u := Strip(Upper(s));
    StartsWith(u, "SELECT") || StartsWith(u, "WITH")
  }

  const InjectionReason := "Potential SQL injection detected"
  const DangerousReason := "Query contains potentially dangerous operations"
  const SyntaxReason := "Invalid SQL syntax"

  /** Where a reason sits in the fixed order the checks run in. */
  function ReasonRank(reason: string): nat {
    if reason == InjectionReason then 0
    else if reason == DangerousReason then 1
    else if reason == SyntaxReason then 2
    else 3
  }

  lemma ReasonRanks()
    ensures ReasonRank(InjectionReason) == 0
    ensures ReasonRank(DangerousReason) == 1
    ensures ReasonRank(SyntaxReason) == 2
  {
    assert |InjectionReason| != |DangerousReason|;
    assert |SyntaxReason| != |DangerousReason|;
    assert |SyntaxReason| != |InjectionReason|;
  }

  /** The `(is_valid, errors)` pair `validate_query` returns. */
  datatype Verdict = Verdict(isValid: bool, errors: seq<string>)

  /** `validate_query`: run the injection scan, the keyword gate and the
      syntax oracle on the raw text, appending one reason per failed check. */
  function ValidateQuery(s: string, syntaxOk: string -> bool): (v: Verdict)
    ensures v.isValid <==> v.errors == []
    ensures |v.errors| <= 3
    ensures InjectionReason in v.errors <==> IsPotentialInjection(s)
    ensures DangerousReason in v.errors <==> ContainsDangerousOperations(s)
    ensures SyntaxReason in v.errors <==> !syntaxOk(s)
    ensures forall i, j | 0 <= i < j < |v.errors| :: ReasonRank(v.errors[i]) < ReasonRank(v.errors[j])
  {
    var errors := Reasons(IsPotentialInjection(s), ContainsDangerousOperations(s), !syntaxOk(s));
    Verdict(|errors| == 0, errors)
  }

  /** The reasons for the failed checks, appended in the order the checks run. */
  function Reasons(injection: bool, dangerous: bool, badSyntax: bool): (errors: seq<string>)
    ensures |errors| <= 3
    ensures errors == [] <==> !injection && !dangerous && !badSyntax
    ensures InjectionReason in errors <==> injection
    ensures DangerousReason in errors <==> dangerous
    ensures SyntaxReason in errors <==> badSyntax
    ensures forall i, j | 0 <= i < j < |errors| :: ReasonRank(errors[i]) < ReasonRank(errors[j])
  {
    ReasonRanks();
    var afterInjection := if injection then [InjectionReason] else [];
    var afterDangerous := afterInjection + if dangerous then [DangerousReason] else [];
    afterDangerous + if badSyntax then [SyntaxReason] else []
  }

  /** After `Strip(Upper(s))`, a keyword without whitespace or lower-case
      letters starts the text exactly when it starts the raw text, in any
      case, right after the leading whitespace. */
  lemma {:induction false} LeadingKeyword(s: string, kw: string)
    requires |kw| > 0 && NoSpace(kw)
    requires forall k | 0 <= k < |kw| :: UpperChar(kw[k]) == kw[k]
    ensures StartsWith(Strip(Upper(s)), kw) <==> MatchCI(s, SkipSpaces(s, 0), kw)
  {
    var u := Upper(s);
    var n := SkipSpaces(s, 0);
    UpperSameRuns(s, 0);
    var l := LStrip(u);
    assert l == u[n..];
    RStripKeepsPrefix(l, kw);
    UpperOccursAt(s, n, kw);
    SuffixStartsWith(u, n, kw);
  }

  /** The text from `i` on starts with `p` exactly when `p` occurs at `i`. */
  lemma {:induction false} SuffixStartsWith(u: string, i: nat, p: string)
    requires i <= |u|
    ensures StartsWith(u[i..], p) <==> OccursAt(u, p, i)
  {
    if i + |p| <= |u| {
      assert u[i..][..|p|] == u[i..i + |p|];
    }
  }

  /** `rstrip` keeps a prefix exactly when it is one: the prefix ends in a
      non-whitespace character. */
  lemma {:induction false} RStripKeepsPrefix(l: string, kw: string)
    requires |kw| > 0 && NoSpace(kw)
    ensures StartsWith(RStrip(l), kw) <==> StartsWith(l, kw)
  {
    var r := RStrip(l);
    if StartsWith(l, kw) {
      assert !IsSpace(l[|kw| - 1]) by { assert l[..|kw|][|kw| - 1] == kw[|kw| - 1]; }
      assert r[..|kw|] == l[..|kw|];
    }
    if StartsWith(r, kw) {
      assert l[..|kw|] == r[..|kw|];
    }
  }

  /** An upper-case literal occurs at `i` in `Upper(s)` exactly when it
      matches `s` at `i` ignoring case. */
  lemma {:induction false} UpperOccursAt(s: string, i: nat, kw: string)
    requires forall k | 0 <= k < |kw| :: UpperChar(kw[k]) == kw[k]
    ensures OccursAt(Upper(s), kw, i) <==> MatchCI(s, i, kw)
  {
    var u := Upper(s);
    MatchCIChars(s, i, kw);
    if OccursAt(u, kw, i) {
      forall k | 0 <= k < |kw|
        ensures UpperChar(s[i + k]) == UpperChar(kw[k])
      {
        assert u[i..i + |kw|][k] == kw[k];
      }
    }
    if MatchCI(s, i, kw) {
      assert u[i..i + |kw|] == kw by {
        forall k | 0 <= k < |kw|
          ensures u[i..i + |kw|][k] == kw[k]
        {
          assert u[i + k] == UpperChar(s[i + k]);
        }
      }
    }
  }

  /** Read-only means: after the leading whitespace, `SELECT` or `WITH` in any case. */
  lemma {:induction false} ReadOnlyByLeadingKeyword(s: string)
    ensures IsReadOnly(s) <==>
      MatchCI(s, SkipSpaces(s, 0), "SELECT") || MatchCI(s, SkipSpaces(s, 0), "WITH")
  {
    LeadingKeyword(s, "SELECT");
    LeadingKeyword(s, "WITH");
  }

  /** The gate short-circuits: whitespace, then `select` in any case, then
      anything at all, is never reported as a dangerous operation. */
  lemma {:induction false} SelectPrefixNeverDangerous(lead: string, select: string, rest: string)
    requires AllSpace(lead)
    requires |select| == 6 && MatchCI(select, 0, "SELECT")
    ensures !ContainsDangerousOperations(lead + select + rest)
  {
    SelectAfterWhitespace(lead, select, rest);
  }

  lemma {:induction false} SelectAfterWhitespace(lead: string, select: string, rest: string)
    requires AllSpace(lead)
    requires |select| == 6 && MatchCI(select, 0, "SELECT")
    ensures StartsWith(Strip(Upper(lead + select + rest)), "SELECT")
  {
    var s := lead + select + rest;
    MatchCIInContext(lead, select, rest, "SELECT");
    assert !IsSpace(s[|lead|]) by {
      MatchCIChars(select, 0, "SELECT");
      assert s[|lead|] == select[0];
      assert UpperChar(select[0]) == 'S';
    }
    SkipSpacesTo(s, 0, |lead|);
    LeadingKeyword(s, "SELECT");
  }

  /** An upper-case keyword occurs in the upper-cased text exactly when it
      occurs in the raw text in some mix of cases. */
  lemma {:induction false} KeywordIgnoresCase(s: string, kw: string)
    requires forall k | 0 <= k < |kw| :: UpperChar(kw[k]) == kw[k]
    ensures Contains(Upper(s), kw) <==> exists i | 0 <= i <= |s| :: MatchCI(s, i, kw)
  {
    if Contains(Upper(s), kw) {
      var i :| 0 <= i <= |s| && OccursAt(Upper(s), kw, i);
      UpperOccursAt(s, i, kw);
    }
    if exists i | 0 <= i <= |s| :: MatchCI(s, i, kw) {
      var i :| 0 <= i <= |s| && MatchCI(s, i, kw);
      UpperOccursAt(s, i, kw);
    }
  }

  /** `SELECT * FROM employees` passes both static checks and is read-only,
      so only the syntax oracle decides it. */
  lemma {:induction false} PlainSelectAccepted(syntaxOk: string -> bool)
    ensures ValidateQuery("SELECT * FROM employees", syntaxOk).isValid <==> syntaxOk("SELECT * FROM employees")
    ensures IsReadOnly("SELECT * FROM employees")
  {
    PlainSelectClean();
    LeadsWith("SELECT * FROM employees", "SELECT");
  }

  lemma {:induction false} PlainSelectClean()
    ensures !IsPotentialInjection("SELECT * FROM employees")
  {
    var s := "SELECT * FROM employees";
    assert NoMatchStartFrom(s, 23);
    assert NoMatchStartFrom(s, 20);
    assert NoMatchStartFrom(s, 17);
    assert NoMatchStartFrom(s, 14);
    assert NoMatchStartFrom(s, 11);
    assert NoMatchStartFrom(s, 8);
    assert NoMatchStartFrom(s, 5);
    assert NoMatchStartFrom(s, 2);
    assert NoMatchStartFrom(s, 0);
    CleanTextNotFlagged(s);
  }

  /** A statement that opens with one of the dangerous keywords (`DROP TABLE
      employees`, `INSERT INTO employees ...`) is not read-only and is
      rejected as a dangerous operation, whatever the syntax oracle says. */
  lemma {:induction false} LeadingKeywordRejected(k: nat, rest: string, syntaxOk: string -> bool)
    requires k < |DangerousKeywords|
    ensures !IsReadOnly(DangerousKeywords[k] + rest)
    ensures ContainsDangerousOperations(DangerousKeywords[k] + rest)
    ensures !ValidateQuery(DangerousKeywords[k] + rest, syntaxOk).isValid
    ensures DangerousReason in ValidateQuery(DangerousKeywords[k] + rest, syntaxOk).errors
  {
    var kw := DangerousKeywords[k];
    var s := kw + rest;
    KeywordShape(k);
    assert s[0] == kw[0];
    LeadsWith(s, "SELECT");
    LeadsWith(s, "WITH");
    KeywordAtFront(kw, rest);
  }

  /** Every dangerous keyword is upper-case, and none begins like `SELECT`
      or `WITH`. */
  lemma {:induction false} KeywordShape(k: nat)
    requires k < |DangerousKeywords|
    ensures |DangerousKeywords[k]| > 0
    ensures forall j | 0 <= j < |DangerousKeywords[k]| :: UpperChar(DangerousKeywords[k][j]) == DangerousKeywords[k][j]
    ensures UpperChar(DangerousKeywords[k][0]) != 'S' && UpperChar(DangerousKeywords[k][0]) != 'W'
    ensures !IsSpace(DangerousKeywords[k][0])
  {
  }

  /** An upper-case word at the front of a text occurs in its upper-cased form. */
  lemma {:induction false} KeywordAtFront(kw: string, rest: string)
    requires forall j | 0 <= j < |kw| :: UpperChar(kw[j]) == kw[j]
    ensures Contains(Upper(kw + rest), kw)
  {
    var s := kw + rest;
    MatchCIInContext([], kw, rest, kw) by { MatchCIChars(kw, 0, kw); }
    assert [] + kw + rest == s;
    UpperOccursAt(s, 0, kw);
  }

  /** A `DROP` chained after a `SELECT` (`SELECT * FROM employees; DROP TABLE
      employees;`) is caught by the injection scan even though the keyword
      gate lets every `SELECT` through. */
  lemma {:induction false} ChainedDropRejected(query: string, rest: string, syntaxOk: string -> bool)
    ensures !ValidateQuery("SELECT" + query + "; DROP " + rest, syntaxOk).isValid
    ensures InjectionReason in ValidateQuery("SELECT" + query + "; DROP " + rest, syntaxOk).errors
    ensures DangerousReason !in ValidateQuery("SELECT" + query + "; DROP " + rest, syntaxOk).errors
  {
    var s := "SELECT" + query + "; DROP " + rest;
    var select, tail := "SELECT", query + "; DROP " + rest;
    ChainedDropFlagged(query, rest);
    Regroup(select, query, "; DROP ", rest);
    SelectPrefixNeverDangerous([], select, tail);
    InjectionOnlyReason(s, syntaxOk);
  }

  lemma Regroup(a: string, b: string, c: string, d: string)
    ensures [] + a + (b + c + d) == a + b + c + d
  {
  }

  /** A text the scan flags and the keyword gate lets through is rejected
      for that one reason (and for its syntax, when that fails too). */
  lemma {:induction false} InjectionOnlyReason(s: string, syntaxOk: string -> bool)
    requires IsPotentialInjection(s) && !ContainsDangerousOperations(s)
    ensures !ValidateQuery(s, syntaxOk).isValid
    ensures InjectionReason in ValidateQuery(s, syntaxOk).errors
    ensures DangerousReason !in ValidateQuery(s, syntaxOk).errors
  {
    var v := ValidateQuery(s, syntaxOk);
    assert v.errors != [];
  }

  lemma {:induction false} ChainedDropFlagged(query: string, rest: string)
    ensures IsPotentialInjection("SELECT" + query + "; DROP " + rest)
  {
    var head := "SELECT" + query + "; ";
    var s := head + "DROP" + (" " + rest);
    assert s == "SELECT" + query + "; DROP " + rest;
    var i := 6 + |query|;
    assert s[i] == ';' && s[i + 1] == ' ' && s[i + 6] == ' ';
    MatchCIInContext(head, "DROP", " " + rest, "drop");
    DropChainFlagged(s, i, i + 2);
  }

  /** A `WITH` query is read-only, yet it does not start with `SELECT`, so
      the keyword gate still searches it: any keyword inside it, even inside
      a column name such as `created_at`, rejects it. */
  lemma {:induction false} WithQueryGated(rest: string)
    ensures IsReadOnly("WITH" + rest)
    ensures ContainsDangerousOperations("WITH" + rest) <==>
      exists k | 0 <= k < |DangerousKeywords| :: Contains(Upper("WITH" + rest), DangerousKeywords[k])
  {
    var s := "WITH" + rest;
    assert s[0] == 'W';
    LeadsWith(s, "SELECT");
    LeadsWith(s, "WITH");
    MatchCIInContext([], "WITH", rest, "WITH");
    assert [] + "WITH" + rest == s;
  }

  /** For a text that does not start with whitespace, the leading-keyword
      test is a case-blind comparison at index 0. */
  lemma {:induction false} LeadsWith(s: string, kw: string)
    requires |s| > 0 && !IsSpace(s[0])
    requires |kw| > 0 && NoSpace(kw)
    requires forall k | 0 <= k < |kw| :: UpperChar(kw[k]) == kw[k]
    ensures StartsWith(Strip(Upper(s)), kw) <==> MatchCI(s, 0, kw)
  {
    SkipSpacesTo(s, 0, 0);
    LeadingKeyword(s, kw);
  }
}
