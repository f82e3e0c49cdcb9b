/** How Go's `json.Marshal` writes a string (HTML escaping on, as `Marshal`
    always has it, with the short `\b` and `\f` escapes of Go 1.22 and
    later), and a decoder for exactly those escapes, which shows that the
    escaping loses nothing. */
module GoJson {
  import opened Common

  /** Lower-case hexadecimal digit, as `encoding/json` writes them. */
  function Hex(d: nat): (c: char)
    requires d < 16
    ensures HexVal(c) == Some(d)
  {
    if d < 10 then ('0' as int + d) as char else ('a' as int + (d - 10)) as char
  }

  /** The value of a hexadecimal digit of either case, as the decoder reads it. */
  function HexVal(c: char): (r: Option<nat>)
    ensures r.Some? ==> r.value < 16
  {
    if '0' <= c <= '9' then Some(c as int - '0' as int)
    else if 'a' <= c <= 'f' then Some(c as int - 'a' as int + 10)
    else if 'A' <= c <= 'F' then Some(c as int - 'A' as int + 10)
    else None
  }

  /** ASCII characters written as themselves: printable, and neither a quote,
      a backslash nor one of the HTML-significant `<`, `>`, `&`. */
  predicate HtmlSafe(c: char)
  {
    ' ' <= c && c as int < 0x80 && c != '"' && c != '\\' && c != '<' && c != '>' && c != '&'
  }

  /** What may appear in the output: no control character, no `<`, `>`, `&`,
      no line or paragraph separator. */
  predicate Clean(c: char)
  {
    c >= ' ' && c != '<' && c != '>' && c != '&' && c != '\U{2028}' && c != '\U{2029}'
  }

  /** One character of a marshalled string. */
  function EscapeChar(c: char): (e: string)
    ensures |e| >= 1
    ensures forall i :: 0 <= i < |e| ==> Clean(e[i])
    ensures HtmlSafe(c) ==> e == [c]
    ensures c as int >= 0x80 && c != '\U{2028}' && c != '\U{2029}' ==> e == [c]
    ensures !HtmlSafe(c) && c as int < 0x80 ==> e[0] == '\\'
  {
    if c as int >= 0x80 then
      if c == '\U{2028}' || c == '\U{2029}' then ['\\', 'u', '2', '0', '2', Hex(c as int % 16)]
      else [c]
    else if HtmlSafe(c) then [c]
    else if c == '"' || c == '\\' then ['\\', c]
    else if c == '\U{0008}' then ['\\', 'b']
    else if c == '\U{000C}' then ['\\', 'f']
    else if c == '\n' then ['\\', 'n']
    else if c == '\r' then ['\\', 'r']
    else if c == '\t' then ['\\', 't']
    else ['\\', 'u', '0', '0', Hex(c as int / 16), Hex(c as int % 16)]
  }

  /** The characters between the quotes of a marshalled string. */
  function Escape(s: string): (e: string)
    ensures forall i :: 0 <= i < |e| ==> Clean(e[i])
    ensures |e| >= |s|
    decreases |s|
  {
    if |s| == 0 then "" else EscapeChar(s[0]) + Escape(s[1..])
  }

  /** A marshalled string, quotes included. */
  function Quote(s: string): string
  {
    "\"" + Escape(s) + "\""
  }

  // ---------------------------------------------------------------------------
  // Decoding the escapes
  // ---------------------------------------------------------------------------

  /** The character a two-character escape `\c` stands for. */
  function ShortEscape(c: char): Option<char>
  {
    if c == '"' || c == '\\' || c == '/' then Some(c)
    else if c == 'b' then Some('\U{0008}')
    else if c == 'f' then Some('\U{000C}')
    else if c == 'n' then Some('\n')
    else if c == 'r' then Some('\r')
    else if c == 't' then Some('\t')
    else None
  }

  /** The value of four hexadecimal digits. */
  function Hex4(s: string): (r: Option<nat>)
    requires |s| == 4
    ensures r.Some? ==> r.value < 0x1_0000
  {
    match (HexVal(s[0]), HexVal(s[1]), HexVal(s[2]), HexVal(s[3]))
    case (Some(a), Some(b), Some(c), Some(d)) => Some(((a * 16 + b) * 16 + c) * 16 + d)
    case _ => None
  }

  predicate IsScalar(v: int)
  {
    0 <= v < 0xD800 || 0xE000 <= v < 0x11_0000
  }

  function Cons(c: char, r: Option<string>): Option<string>
  {
    match r
    case None => None
    case Some(t) => Some([c] + t)
  }

  /** Reads the characters between the quotes back: plain characters stand
      for themselves, `\c` and `\uXXXX` for what they escape; any other
      backslash, and a `\u` escape of a surrogate half, is refused. */
  function Unescape(s: string): Option<string>
    decreases |s|
  {
    if |s| == 0 then Some("")
    else if s[0] != '\\' then Cons(s[0], Unescape(s[1..]))
    else if |s| >= 2 && ShortEscape(s[1]).Some? then Cons(ShortEscape(s[1]).value, Unescape(s[2..]))
    else if |s| >= 6 && s[1] == 'u' && Hex4(s[2..6]).Some? && IsScalar(Hex4(s[2..6]).value) then
      Cons(Hex4(s[2..6]).value as char, Unescape(s[6..]))
    else None
  }

  // ---------------------------------------------------------------------------
  // Properties
  // ---------------------------------------------------------------------------

  /** A `\u` escape of four hexadecimal digits decodes to its value. */
  lemma Hex4Digits(d0: nat, d1: nat, d2: nat, d3: nat)
    requires d0 < 16 && d1 < 16 && d2 < 16 && d3 < 16
    ensures Hex4([Hex(d0), Hex(d1), Hex(d2), Hex(d3)]) == Some(((d0 * 16 + d1) * 16 + d2) * 16 + d3)
  {
  }

  /** A `\u` escape of a scalar value decodes to that character, and then
      decoding goes on with whatever follows. */
  lemma UnescapeHex(d0: nat, d1: nat, d2: nat, d3: nat, rest: string)
    requires d0 < 16 && d1 < 16 && d2 < 16 && d3 < 16
    requires IsScalar(((d0 * 16 + d1) * 16 + d2) * 16 + d3)
    ensures Unescape(['\\', 'u', Hex(d0), Hex(d1), Hex(d2), Hex(d3)] + rest)
         == Cons((((d0 * 16 + d1) * 16 + d2) * 16 + d3) as char, Unescape(rest))
  {
    var s := ['\\', 'u', Hex(d0), Hex(d1), Hex(d2), Hex(d3)] + rest;
    assert s[2..6] == [Hex(d0), Hex(d1), Hex(d2), Hex(d3)];
    Hex4Digits(d0, d1, d2, d3);
    assert ShortEscape(s[1]).None?;
    assert s[6..] == rest;
  }

  /** Decoding a `\uXXXX` escape of `c` gives `c` back. */
  lemma UnescapeU(c: char, rest: string)
    requires |EscapeChar(c)| == 6
    ensures Unescape(EscapeChar(c) + rest) == Cons(c, Unescape(rest))
  {
    var n := c as int;
    if n >= 0x80 {
      assert EscapeChar(c) == ['\\', 'u', Hex(2), Hex(0), Hex(2), Hex(n % 16)];
      assert ((2 * 16 + 0) * 16 + 2) * 16 + n % 16 == n;
      UnescapeHex(2, 0, 2, n % 16, rest);
    } else {
      assert EscapeChar(c) == ['\\', 'u', Hex(0), Hex(0), Hex(n / 16), Hex(n % 16)];
      assert ((0 * 16 + 0) * 16 + n / 16) * 16 + n % 16 == n;
      UnescapeHex(0, 0, n / 16, n % 16, rest);
    }
  }

  /** Decoding the escape of one character gives that character back, and
      then goes on with whatever follows. */
  lemma UnescapeChar(c: char, rest: string)
    ensures Unescape(EscapeChar(c) + rest) == Cons(c, Unescape(rest))
  {
    var e := EscapeChar(c);
    var s := e + rest;
    if |e| == 1 {
      assert s[0] == c && s[1..] == rest;
    } else if |e| == 2 {
      assert ShortEscape(e[1]) == Some(c);
      assert s[1] == e[1] && s[2..] == rest;
    } else {
      UnescapeU(c, rest);
    }
  }

  /** `Unescape` undoes `Escape`: every string survives marshalling. */
  lemma {:induction false} UnescapeEscape(s: string)
    ensures Unescape(Escape(s)) == Some(s)
    decreases |s|
  {
    if |s| > 0 {
      UnescapeEscape(s[1..]);
      UnescapeChar(s[0], Escape(s[1..]));
      assert [s[0]] + s[1..] == s;
    }
  }

  /** So two strings that marshal alike are equal. */
  lemma EscapeInjective(s: string, t: string)
    requires Escape(s) == Escape(t)
    ensures s == t
  {
    UnescapeEscape(s);
    UnescapeEscape(t);
  }
}
