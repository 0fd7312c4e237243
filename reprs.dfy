/**
  Python's `repr` of a `str`, which is how `str()` of a set shows each member.
  The string is put in single quotes, unless it holds a single quote and no
  double quote, in which case double quotes are used. Inside the quotes, the
  backslash and the chosen quote are escaped with a backslash. Tab, newline and
  carriage return are written `\t`, `\n` and `\r`; every other ASCII control
  character is written `\xhh` in lower-case hex. Only ASCII is modelled: a
  non-ASCII character is written as itself.
*/
module Reprs {
  import opened Wrappers

  /** An ASCII control character other than the three with names of their own. */
  predicate IsHexEscaped(c: char) {
    (c as int < 0x20 || c as int == 0x7f) && c != '\t' && c != '\n' && c != '\r'
  }

  function HexDigit(d: nat): (h: char)
    requires d < 16
    ensures '0' <= h <= '9' || 'a' <= h <= 'f'
  {
    if d < 10 then ('0' as int + d) as char else ('a' as int + d - 10) as char
  }

  predicate IsHexDigit(h: char) {
    '0' <= h <= '9' || 'a' <= h <= 'f'
  }

  function HexValue(h: char): (d: nat)
    requires IsHexDigit(h)
    ensures d < 16
  {
    if h <= '9' then h as int - '0' as int else h as int - 'a' as int + 10
  }

  /** The quote `repr` puts around `s`. */
  function QuoteFor(s: string): char {
    if '\'' in s && '"' !in s then '"' else '\''
  }

  /** How one character is written between quotes `q`. */
  function EscapeChar(c: char, q: char): string {
    if c == q || c == '\\' then ['\\', c]
    else if c == '\t' then "\\t"
    else if c == '\n' then "\\n"
    else if c == '\r' then "\\r"
    else if IsHexEscaped(c) then ['\\', 'x', HexDigit(c as int / 16), HexDigit(c as int % 16)]
    else [c]
  }

  /** The characters of `s`, each written as `EscapeChar` says. */
  function Escape(s: string, q: char): string
    decreases |s|
  {
    if s == [] then [] else EscapeChar(s[0], q) + Escape(s[1..], q)
  }

  /** `repr(s)` for a `str`. */
  function Repr(s: string): (r: string)
    ensures |r| >= 2 && r[0] == QuoteFor(s) && r[|r| - 1] == QuoteFor(s)
  {
    var q := QuoteFor(s);
    [q] + Escape(s, q) + [q]
  }

  function Prepend(c: char, rest: Option<string>): Option<string> {
    match rest
    case Some(t) => Some([c] + t)
    case None => None
  }

  /** How Python reads the inside of a string literal with these escapes back; None for an escape it does not know. */
  function Unescape(body: string): Option<string>
    decreases |body|
  {
    if body == [] then Some([])
    else if body[0] != '\\' then Prepend(body[0], Unescape(body[1..]))
    else if |body| < 2 then None
    else if body[1] == '\\' || body[1] == '\'' || body[1] == '"' then Prepend(body[1], Unescape(body[2..]))
    else if body[1] == 't' then Prepend('\t', Unescape(body[2..]))
    else if body[1] == 'n' then Prepend('\n', Unescape(body[2..]))
    else if body[1] == 'r' then Prepend('\r', Unescape(body[2..]))
    else if body[1] == 'x' && |body| >= 4 && IsHexDigit(body[2]) && IsHexDigit(body[3]) then
      Prepend((HexValue(body[2]) * 16 + HexValue(body[3])) as char, Unescape(body[4..]))
    else None
  }

  /** Reading a quoted literal back: the text between matching quotes, unescaped. */
  function Unrepr(r: string): Option<string> {
    if |r| >= 2 && (r[0] == '\'' || r[0] == '"') && r[|r| - 1] == r[0] then Unescape(r[1..|r| - 1]) else None
  }

  /** Unescaping one written character followed by more text gives the character back first. */
  lemma UnescapeChar(c: char, q: char, t: string)
    requires q == '\'' || q == '"'
    ensures Unescape(EscapeChar(c, q) + t) == Prepend(c, Unescape(t))
  {
    var body := EscapeChar(c, q) + t;
    if c == q || c == '\\' {
      assert body[2..] == t;
    } else if c == '\t' || c == '\n' || c == '\r' {
      assert body[2..] == t;
    } else if IsHexEscaped(c) {
      assert body[4..] == t;
      assert HexValue(body[2]) * 16 + HexValue(body[3]) == c as int;
    } else {
      assert body[1..] == t;
    }
  }

  lemma {:induction false} UnescapeEscape(s: string, q: char)
    requires q == '\'' || q == '"'
    ensures Unescape(Escape(s, q)) == Some(s)
    decreases |s|
  {
    if s != [] {
      UnescapeChar(s[0], q, Escape(s[1..], q));
      UnescapeEscape(s[1..], q);
      assert [s[0]] + s[1..] == s;
    }
  }

  /** `repr` loses nothing: reading its text back gives the string. */
  lemma ReprRoundTrip(s: string)
    ensures Unrepr(Repr(s)) == Some(s)
  {
    var q := QuoteFor(s);
    var r := Repr(s);
    assert r[1..|r| - 1] == Escape(s, q);
    UnescapeEscape(s, q);
  }

  /** No quote, backslash or control character: a character is written as itself. */
  predicate IsPlain(c: char) {
    c != '\'' && c != '"' && c != '\\' && c as int >= 0x20 && c as int != 0x7f
  }

  lemma {:induction false} EscapePlain(s: string, q: char)
    requires q == '\'' || q == '"'
    requires forall i :: 0 <= i < |s| ==> IsPlain(s[i]) || (s[i] != q && (s[i] == '\'' || s[i] == '"'))
    ensures Escape(s, q) == s
    decreases |s|
  {
    if s != [] {
      assert EscapeChar(s[0], q) == [s[0]];
      EscapePlain(s[1..], q);
      assert [s[0]] + s[1..] == s;
    }
  }

  /** A name of plain characters is shown in single quotes unchanged. */
  lemma ReprPlain(s: string)
    requires forall i :: 0 <= i < |s| ==> IsPlain(s[i])
    ensures Repr(s) == "'" + s + "'"
  {
    assert '\'' !in s by {
      forall i | 0 <= i < |s|
        ensures s[i] != '\''
      {
        assert IsPlain(s[i]);
      }
    }
    EscapePlain(s, '\'');
  }

  /** A name holding a single quote but no double quote is shown in double quotes with the single quote unescaped. */
  lemma ReprSwitchesQuotes(s: string)
    requires '\'' in s
    requires forall i :: 0 <= i < |s| ==> IsPlain(s[i]) || s[i] == '\''
    ensures Repr(s) == "\"" + s + "\""
  {
    assert '"' !in s by {
      forall i | 0 <= i < |s|
        ensures s[i] != '"'
      {
        assert IsPlain(s[i]) || s[i] == '\'';
      }
    }
    EscapePlain(s, '"');
  }

  /** A backslash is doubled: the three characters `a`, backslash, `b` are shown as `'a\\b'`. */
  lemma ReprBackslash()
    ensures Repr("a\\b") == "'a\\\\b'"
  {
    assert EscapeChar('\\', '\'') == "\\\\";
    assert Escape("a\\b", '\'') == "a" + Escape("\\b", '\'');
    assert Escape("\\b", '\'') == "\\\\" + Escape("b", '\'');
  }
}
