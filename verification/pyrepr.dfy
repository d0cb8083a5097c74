/** Python's `repr` of the values the renderers interpolate into f-strings:
    strings, lists of strings (foreign-key column lists), and the
    `dict(sqlite3.Row)` sample rows of `format_schema_for_llm`. */
module PyRepr {
  import opened Options
  import opened Text

  /** One value as `sqlite3` returns it. A float is carried as the text
      Python's `repr` gives it. */
  datatype SqlValue = Null | Integer(i: int) | Real(repr: string) | Text(s: string)

  /** A result row: `dict(row)`, column names to values in column order. */
  type Row = seq<(string, SqlValue)>

  /** Python's `bool(v)`. */
  predicate Truthy(v: SqlValue) {
    match v
    case Null => false
    case Integer(i) => i != 0
    case Real(r) => r != "0.0" && r != "-0.0"
    case Text(s) => s != ""
  }

  /** `str(v)`: what an f-string placeholder prints. */
  function Str(v: SqlValue): string {
    match v
    case Null => "None"
    case Integer(i) => IntToString(i)
    case Real(r) => r
    case Text(s) => s
  }

  /** `repr(s)` picks double quotes only when the text holds a single quote
      and no double quote. */
  function QuoteFor(s: string): (q: char)
    ensures q == '\'' || q == '"'
    ensures q == '"' <==> '\'' in s && '"' !in s
  {
    if '\'' in s && '"' !in s then '"' else '\''
  }

  function HexDigit(d: nat): (c: char)
    requires d < 16
  {
    "0123456789abcdef"[d]
  }

  /** The value of a lower-case hex digit, if it is one. */
  function HexValue(c: char): (r: Option<nat>)
    ensures r.Some? ==> r.value < 16
  {
    if '0' <= c <= '9' then Some(c as nat - '0' as nat)
    else if 'a' <= c <= 'f' then Some(c as nat - 'a' as nat + 10)
    else None
  }

  /** How `repr` writes one ASCII character inside quotes `q`. */
  function EscapeChar(c: char, q: char): (e: string)
    ensures |e| > 0
    ensures e[0] == '\\' || (e == [c] && c != '\\' && c != q)
  {
    if c == '\\' then "\\\\"
    else if c == q then ['\\', q]
    else if c == '\t' then "\\t"
    else if c == '\n' then "\\n"
    else if c == '\r' then "\\r"
    else if c < ' ' || c == '\U{7F}' then
      ['\\', 'x', HexDigit(c as nat / 16), HexDigit(c as nat % 16)]
    else [c]
  }

  function Escape(s: string, q: char): string
    decreases |s|
  {
    if |s| == 0 then "" else EscapeChar(s[0], q) + Escape(s[1..], q)
  }

  /** `repr(s)` for a `str`. */
  function StrRepr(s: string): (r: string)
    ensures |r| >= 2 && r[0] == r[|r| - 1] == QuoteFor(s)
  {
    var q := QuoteFor(s);
    [q] + Escape(s, q) + [q]
  }

  /** `repr(xs)` for a `list` of `str`: `['a', 'b']`. */
  function ListRepr(xs: seq<string>): (r: string)
    ensures |r| >= 2 && r[0] == '[' && r[|r| - 1] == ']'
  {
    "[" + Join(", ", ReprAll(xs)) + "]"
  }

  function ReprAll(xs: seq<string>): (rs: seq<string>)
    ensures |rs| == |xs|
    ensures forall i | 0 <= i < |xs| :: rs[i] == StrRepr(xs[i])
  {
    seq(|xs|, i requires 0 <= i < |xs| => StrRepr(xs[i]))
  }

  /** `repr(v)` for a value in a sample row. */
  function ValueRepr(v: SqlValue): string {
    match v
    case Null => "None"
    case Integer(i) => IntToString(i)
    case Real(r) => r
    case Text(s) => StrRepr(s)
  }

  /** `repr(row)` for a `dict`: `{'k': v, ...}`. */
  function RowRepr(row: Row): (r: string)
    ensures |r| >= 2 && r[0] == '{' && r[|r| - 1] == '}'
  {
    "{" + Join(", ", EntryReprs(row)) + "}"
  }

  function EntryReprs(row: Row): (es: seq<string>)
    ensures |es| == |row|
  {
    seq(|row|, i requires 0 <= i < |row| => StrRepr(row[i].0) + ": " + ValueRepr(row[i].1))
  }

  /** Reads back the body of a quoted literal, undoing the escapes
      `EscapeChar` writes; `None` on a malformed escape. */
  function Unescape(body: string): (r: Option<string>)
    decreases |body|
  {
    if |body| == 0 then Some([])
    else if body[0] != '\\' then
      var rest :- Unescape(body[1..]);
      Some([body[0]] + rest)
    else if |body| < 2 then None
    else
      var e := body[1];
      if e == '\\' || e == '\'' || e == '"' then
        var rest :- Unescape(body[2..]);
        Some([e] + rest)
      else if e == 't' || e == 'n' || e == 'r' then
        var rest :- Unescape(body[2..]);
        Some([if e == 't' then '\t' else if e == 'n' then '\n' else '\r'] + rest)
      else if e == 'x' && |body| >= 4 && HexValue(body[2]).Some? && HexValue(body[3]).Some? then
        var rest :- Unescape(body[4..]);
        Some([(HexValue(body[2]).value * 16 + HexValue(body[3]).value) as char] + rest)
      else None
  }

  /** Reads back a quoted string literal. */
  function Unrepr(r: string): Option<string> {
    if |r| >= 2 && r[0] == r[|r| - 1] && (r[0] == '\'' || r[0] == '"') then Unescape(r[1..|r| - 1])
    else None
  }

  /** `repr` loses nothing: reading the literal back gives the string. */
  lemma {:induction false} ReprRoundTrip(s: string)
    ensures Unrepr(StrRepr(s)) == Some(s)
  {
    var q := QuoteFor(s);
    var r := StrRepr(s);
    assert r[1..|r| - 1] == Escape(s, q);
    UnescapeEscape(s, q);
  }

  lemma {:induction false} UnescapeEscape(s: string, q: char)
    requires q == '\'' || q == '"'
    ensures Unescape(Escape(s, q)) == Some(s)
    decreases |s|
  {
    if |s| > 0 {
      UnescapeEscape(s[1..], q);
      UnescapeChar(s[0], q, Escape(s[1..], q));
      assert [s[0]] + s[1..] == s;
    }
  }

  /** One escaped character reads back as itself, whatever follows it. */
  lemma {:induction false} UnescapeChar(c: char, q: char, t: string)
    requires q == '\'' || q == '"'
    requires Unescape(t).Some?
    ensures Unescape(EscapeChar(c, q) + t) == Some([c] + Unescape(t).value)
  {
    var b := EscapeChar(c, q) + t;
    var e := EscapeChar(c, q);
    if e[0] != '\\' {
      assert b[0] == c && b[1..] == t;
    } else if |e| == 2 {
      assert b[1] == e[1] && b[2..] == t;
    } else {
      assert |e| == 4;
      assert b[1] == 'x' && b[2] == e[2] && b[3] == e[3] && b[4..] == t;
      HexDigitValue(c as nat / 16);
      HexDigitValue(c as nat % 16);
    }
  }

  lemma {:induction false} HexDigitValue(d: nat)
    requires d < 16
    ensures HexValue(HexDigit(d)) == Some(d)
  {
  }
}
