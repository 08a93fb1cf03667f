/**
 A small model of `strconv.Quote`: a quoted string marks its own end, so it can be
 read back whatever follows it.
 */
module Quoting {
  import opened Strings

  /** A byte as it stands between quotes: quotes, backslashes and line breaks are escaped. */
  function Escape(c: char): string {
    if c == '"' then "\\\""
    else if c == '\\' then "\\\\"
    else if c == '\n' then "\\n"
    else if c == '\r' then "\\r"
    else [c]
  }

  function Escaped(s: string): string {
    if s == [] then [] else Escape(s[0]) + Escaped(s[1..])
  }

  function Quote(s: string): string {
    "\"" + Escaped(s) + "\""
  }

  // ---------- A quoted string with what follows it ----------

  ghost function PrintEscaped(s: string, rest: string): string {
    if s == [] then rest else Escape(s[0]) + PrintEscaped(s[1..], rest)
  }

  ghost function PrintQuote(s: string, rest: string): string {
    "\"" + PrintEscaped(s, "\"" + rest)
  }

  lemma {:induction false} EscapedThenRest(s: string, rest: string)
    ensures Escaped(s) + rest == PrintEscaped(s, rest)
  {
    if s == [] {
      assert Escaped(s) + rest == rest;
    } else {
      EscapedThenRest(s[1..], rest);
      Assoc(Escape(s[0]), Escaped(s[1..]), rest);
    }
  }

  lemma QuoteThenRest(s: string, rest: string)
    ensures Quote(s) + rest == PrintQuote(s, rest)
  {
    Assoc("\"" + Escaped(s), "\"", rest);
    Assoc("\"", Escaped(s), "\"" + rest);
    EscapedThenRest(s, "\"" + rest);
  }

  // ---------- Reading it back ----------

  lemma {:induction false} EscapedUnique(s: string, t: string, x: string, y: string)
    requires PrintEscaped(s, "\"" + x) == PrintEscaped(t, "\"" + y)
    ensures s == t && x == y
  {
    var p, q := PrintEscaped(s, "\"" + x), PrintEscaped(t, "\"" + y);
    EscapedHead(s, x);
    EscapedHead(t, y);
    if s == [] {
      Drop("\"", x, y);
    } else {
      assert p[0] == Escape(s[0])[0] && q[0] == Escape(t[0])[0];
      assert |Escape(s[0])| > 1 ==> p[1] == Escape(s[0])[1];
      assert |Escape(t[0])| > 1 ==> q[1] == Escape(t[0])[1];
      assert s[0] == t[0];
      Drop(Escape(s[0]), PrintEscaped(s[1..], "\"" + x), PrintEscaped(t[1..], "\"" + y));
      EscapedUnique(s[1..], t[1..], x, y);
      assert s == [s[0]] + s[1..] && t == [t[0]] + t[1..];
    }
  }

  /** No escaped byte starts with a quote, so the closing quote is recognised. */
  lemma EscapedHead(s: string, x: string)
    ensures PrintEscaped(s, "\"" + x) != []
    ensures PrintEscaped(s, "\"" + x)[0] == '"' <==> s == []
  {
  }

  lemma QuoteUnique(s: string, t: string, x: string, y: string)
    requires PrintQuote(s, x) == PrintQuote(t, y)
    ensures s == t && x == y
  {
    Drop("\"", PrintEscaped(s, "\"" + x), PrintEscaped(t, "\"" + y));
    EscapedUnique(s, t, x, y);
  }
}
