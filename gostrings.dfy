/** The parts of Go's `strings`, `unicode` and UTF-8 string conversion that the
    core relies on, modelled on Dafny strings (sequences of Unicode scalar values). */
module GoStrings {
  import opened Common

  // ---------------------------------------------------------------------------
  // Character classes
  // ---------------------------------------------------------------------------

  /** Go's `unicode.IsSpace`: the Unicode White_Space property. */
  predicate IsSpace(c: char) {
    c == '\t' || c == '\n' || c == '\U{000B}' || c == '\U{000C}' || c == '\r' || c == ' '
    || c == '\U{0085}' || c == '\U{00A0}' || c == '\U{1680}'
    || ('\U{2000}' <= c <= '\U{200A}')
    || c == '\U{2028}' || c == '\U{2029}' || c == '\U{202F}' || c == '\U{205F}' || c == '\U{3000}'
  }

  /** The class `\s` of Go's regexp package (RE2's Perl class `[\t\n\f\r ]`). */
  predicate IsPerlSpace(c: char) {
    c == '\t' || c == '\n' || c == '\U{000C}' || c == '\r' || c == ' '
  }

  // ---------------------------------------------------------------------------
  // Substrings
  // ---------------------------------------------------------------------------

  predicate HasPrefix(s: string, prefix: string) {
    |prefix| <= |s| && s[..|prefix|] == prefix
  }

  /** Declarative reading of `strings.Contains`: `t` occurs at some position of `s`. */
  ghost predicate OccursAt(s: string, t: string, i: int) {
    0 <= i && i + |t| <= |s| && s[i..i + |t|] == t
  }

  /** Go's `strings.Contains`, scanning start positions from the left. */
  predicate Contains(s: string, t: string)
    decreases |s|
  {
    HasPrefix(s, t) || (|s| > 0 && Contains(s[1..], t))
  }

  /** `Contains` finds exactly the occurrences there are. */
  lemma {:induction false} ContainsIffOccurs(s: string, t: string)
    ensures Contains(s, t) <==> exists i :: OccursAt(s, t, i)
    decreases |s|
  {
    if HasPrefix(s, t) {
      assert OccursAt(s, t, 0);
    } else if |s| == 0 {
      assert |t| > 0;
    } else {
      ContainsIffOccurs(s[1..], t);
      if exists i :: OccursAt(s[1..], t, i) {
        var i :| OccursAt(s[1..], t, i);
        assert s[i + 1..i + 1 + |t|] == s[1..][i..i + |t|];
        assert OccursAt(s, t, i + 1);
      }
      if exists i :: OccursAt(s, t, i) {
        var i :| OccursAt(s, t, i);
        assert i != 0;
        assert s[1..][i - 1..i - 1 + |t|] == s[i..i + |t|];
        assert OccursAt(s[1..], t, i - 1);
      }
    }
  }

  /** A prefix of the haystack cannot take part in a match of `t` when it does
      not contain `t`'s first character: prepending such text changes nothing. */
  lemma {:induction false} ContainsAfterPrefix(p: string, s: string, t: string)
    requires |t| > 0 && t[0] !in p
    ensures Contains(p + s, t) <==> Contains(s, t)
    decreases |p|
  {
    if |p| > 0 {
      assert (p + s)[1..] == p[1..] + s;
      assert (p + s)[0] == p[0] != t[0];
      ContainsAfterPrefix(p[1..], s, t);
    } else {
      assert p + s == s;
    }
  }

  /** A string contains each of its prefixes. */
  lemma ContainsPrefix(s: string, t: string)
    requires HasPrefix(s, t)
    ensures Contains(s, t)
  {
  }

  /** Go's `strings.CutPrefix`: the rest after `prefix`, if `s` starts with it. */
  function CutPrefix(s: string, prefix: string): (r: Option<string>)
    ensures r.Some? <==> HasPrefix(s, prefix)
    ensures r.Some? ==> prefix + r.value == s
  {
    if HasPrefix(s, prefix) then
      assert s == s[..|prefix|] + s[|prefix|..];
      Some(s[|prefix|..])
    else None
  }

  // ---------------------------------------------------------------------------
  // Trimming, counting, repeating
  // ---------------------------------------------------------------------------

  /** Go's `strings.TrimRightFunc(s, unicode.IsSpace)`. */
  function TrimRightSpace(s: string): (r: string)
    ensures |r| <= |s| && r == s[..|r|]
    ensures |r| > 0 ==> !IsSpace(r[|r| - 1])
    ensures forall i :: |r| <= i < |s| ==> IsSpace(s[i])
  {
    if |s| > 0 && IsSpace(s[|s| - 1]) then TrimRightSpace(s[..|s| - 1]) else s
  }

  /** Go's `strings.TrimLeftFunc(s, unicode.IsSpace)`. */
  function TrimLeftSpace(s: string): (r: string)
    ensures |r| <= |s| && r == s[|s| - |r|..]
    ensures |r| > 0 ==> !IsSpace(r[0])
    ensures forall i :: 0 <= i < |s| - |r| ==> IsSpace(s[i])
  {
    if |s| > 0 && IsSpace(s[0]) then TrimLeftSpace(s[1..]) else s
  }

  /** Go's `strings.TrimSpace`. */
  function TrimSpace(s: string): (r: string)
    ensures |r| <= |s|
    ensures |r| > 0 ==> !IsSpace(r[0]) && !IsSpace(r[|r| - 1])
    ensures exists i, j ::
              && 0 <= i <= j <= |s| && r == s[i..j]
              && (forall k :: 0 <= k < i ==> IsSpace(s[k]))
              && (forall k :: j <= k < |s| ==> IsSpace(s[k]))
  {
    var l := TrimLeftSpace(s);
    var i := |s| - |l|;
    var r := TrimRightSpace(l);
    assert l == s[i..];
    assert r == s[i..i + |r|];
    assert forall k :: i + |r| <= k < |s| ==> s[k] == l[k - i];
    r
  }

  /** Go's `strings.Count(s, string(c))` for a one-character separator. */
  function Count(s: string, c: char): (n: nat)
    ensures n <= |s|
    ensures n == 0 <==> c !in s
  {
    if |s| == 0 then 0 else (if s[0] == c then 1 else 0) + Count(s[1..], c)
  }

  /** Go's `strings.Repeat(string(c), n)`. */
  function Repeat(c: char, n: nat): (r: string)
    ensures |r| == n && forall i :: 0 <= i < n ==> r[i] == c
  {
    seq(n, _ => c)
  }

  // ---------------------------------------------------------------------------
  // Split and Join on a one-character separator
  // ---------------------------------------------------------------------------

  /** Go's `strings.Split(s, string(sep))`: the pieces between separators; an
      empty string gives one empty piece and adjacent separators give empty ones. */
  function Split(s: string, sep: char): (parts: seq<string>)
    ensures |parts| == Count(s, sep) + 1
    ensures forall i :: 0 <= i < |parts| ==> sep !in parts[i]
    decreases |s|
  {
    if |s| == 0 then [""]
    else
      var rest := Split(s[1..], sep);
      if s[0] == sep then [""] + rest
      else [[s[0]] + rest[0]] + rest[1..]
  }

  /** Go's `strings.Join(parts, string(sep))`. */
  function Join(parts: seq<string>, sep: char): string
  {
    if |parts| == 0 then ""
    else if |parts| == 1 then parts[0]
    else parts[0] + [sep] + Join(parts[1..], sep)
  }

  /** Splitting loses nothing: joining the pieces back gives the original string. */
  lemma {:induction false} JoinSplit(s: string, sep: char)
    ensures Join(Split(s, sep), sep) == s
    decreases |s|
  {
    if |s| > 0 {
      var rest := Split(s[1..], sep);
      JoinSplit(s[1..], sep);
      if s[0] == sep {
        assert Split(s, sep) == [""] + rest;
        assert ([""] + rest)[1..] == rest;
        assert s == [sep] + s[1..];
      } else {
        JoinFirstPiece(s[0], rest, sep);
        assert s == [s[0]] + s[1..];
      }
    }
  }

  /** Joining after a character was put before the first piece puts it before
      the joined text. */
  lemma JoinFirstPiece(c: char, parts: seq<string>, sep: char)
    requires |parts| >= 1
    ensures Join([[c] + parts[0]] + parts[1..], sep) == [c] + Join(parts, sep)
  {
    var longer := [[c] + parts[0]] + parts[1..];
    assert longer[0] == [c] + parts[0] && longer[1..] == parts[1..];
    if |parts| > 1 {
      var tail := Join(parts[1..], sep);
      assert Join(longer, sep) == ([c] + parts[0]) + [sep] + tail;
      assert Join(parts, sep) == parts[0] + [sep] + tail;
      Assoc([c], parts[0], [sep]);
      Assoc([c], parts[0] + [sep], tail);
    }
  }

  /** A piece without the separator splits to itself. */
  lemma {:induction false} SplitWhole(x: string, sep: char)
    requires sep !in x
    ensures Split(x, sep) == [x]
    decreases |x|
  {
    if |x| > 0 {
      SplitWhole(x[1..], sep);
      assert [x[0]] + x[1..] == x;
    }
  }

  /** Splitting cuts off the first piece at the first separator. */
  lemma {:induction false} SplitFirstPiece(x: string, rest: string, sep: char)
    requires sep !in x
    ensures Split(x + [sep] + rest, sep) == [x] + Split(rest, sep)
    decreases |x|
  {
    var s := x + [sep] + rest;
    if |x| == 0 {
      assert s == [sep] + rest;
      assert s[1..] == rest;
    } else {
      assert s[1..] == x[1..] + [sep] + rest;
      SplitFirstPiece(x[1..], rest, sep);
      assert [x[0]] + x[1..] == x;
    }
  }

  /** Two separators in a row leave an empty piece between their neighbours. */
  lemma SplitDoubled(x: string, y: string, sep: char)
    requires sep !in x && sep !in y
    ensures Split(x + [sep, sep] + y, sep) == [x, "", y]
  {
    var t := [sep] + y;
    assert x + [sep, sep] + y == x + [sep] + t;
    assert t == [] + [sep] + y;
    SplitFirstPiece(x, t, sep);
    SplitFirstPiece([], y, sep);
    SplitWhole(y, sep);
  }

  // ---------------------------------------------------------------------------
  // UTF-8: Go's []byte(s) conversion
  // ---------------------------------------------------------------------------

  /** The UTF-8 encoding of one Unicode scalar value. */
  function Utf8Char(c: char): (b: seq<byte>)
    ensures 1 <= |b| <= 4
  {
    var n := c as int;
    if n < 0x80 then [n]
    else if n < 0x800 then [0xC0 + n / 64, 0x80 + n % 64]
    else if n < 0x1_0000 then [0xE0 + n / 4096, 0x80 + (n / 64) % 64, 0x80 + n % 64]
    else [0xF0 + n / 262144, 0x80 + (n / 4096) % 64, 0x80 + (n / 64) % 64, 0x80 + n % 64]
  }

  /** Go's `[]byte(s)`: the UTF-8 bytes of a string. */
  function Utf8(s: string): seq<byte>
  {
    if |s| == 0 then [] else Utf8Char(s[0]) + Utf8(s[1..])
  }

  /** Number of bytes a UTF-8 sequence takes, read off its lead byte. */
  function SequenceLength(lead: byte): nat
  {
    if lead < 0x80 then 1 else if lead < 0xE0 then 2 else if lead < 0xF0 then 3 else 4
  }

  /** The scalar value a well-formed UTF-8 sequence stands for. */
  function DecodeChar(b: seq<byte>): int
    requires 1 <= |b| <= 4
  {
    var b0, b1 := b[0] as int, if |b| > 1 then b[1] as int else 0;
    var b2, b3 := if |b| > 2 then b[2] as int else 0, if |b| > 3 then b[3] as int else 0;
    if |b| == 1 then b0
    else if |b| == 2 then (b0 - 0xC0) * 64 + (b1 - 0x80)
    else if |b| == 3 then ((b0 - 0xE0) * 64 + (b1 - 0x80)) * 64 + (b2 - 0x80)
    else (((b0 - 0xF0) * 64 + (b1 - 0x80)) * 64 + (b2 - 0x80)) * 64 + (b3 - 0x80)
  }

  /** Each character's encoding announces its own length and decodes back. */
  lemma Utf8CharRoundTrip(c: char)
    ensures SequenceLength(Utf8Char(c)[0]) == |Utf8Char(c)|
    ensures DecodeChar(Utf8Char(c)) == c as int
  {
    var n := c as int;
    if n >= 0x800 && n < 0x1_0000 {
      ThreeByteDigits(n);
    } else if n >= 0x1_0000 {
      FourByteDigits(n);
    }
  }

  /** The base-64 digits of a value below 2^16. */
  lemma ThreeByteDigits(n: nat)
    requires n < 0x1_0000
    ensures n == ((n / 4096) * 64 + (n / 64) % 64) * 64 + n % 64
  {
    var q := n / 64;
    assert n == q * 64 + n % 64;
    assert q == (q / 64) * 64 + q % 64;
    assert q / 64 == n / 4096;
  }

  /** The base-64 digits of a value below 2^21. */
  lemma FourByteDigits(n: nat)
    ensures n / 64 == (n / 4096) * 64 + (n / 64) % 64
    ensures n / 4096 == (n / 262144) * 64 + (n / 4096) % 64
  {
    var q := n / 64;
    assert q / 64 == n / 4096;
    var r := n / 4096;
    assert r / 64 == n / 262144;
  }

  /** Go's `[]byte` conversion distributes over concatenation. */
  lemma {:induction false} Utf8Append(a: string, b: string)
    ensures Utf8(a + b) == Utf8(a) + Utf8(b)
    decreases |a|
  {
    if |a| > 0 {
      assert (a + b)[0] == a[0];
      assert (a + b)[1..] == a[1..] + b;
      Utf8Append(a[1..], b);
    } else {
      assert a + b == b;
    }
  }

  /** Distinct strings have distinct UTF-8 bytes. */
  lemma {:induction false} Utf8Injective(s: string, t: string)
    requires Utf8(s) == Utf8(t)
    ensures s == t
    decreases |s|
  {
    if |s| == 0 || |t| == 0 {
      assert Utf8(s) == [] == Utf8(t);
    } else {
      var bs, bt := Utf8Char(s[0]), Utf8Char(t[0]);
      Utf8CharRoundTrip(s[0]);
      Utf8CharRoundTrip(t[0]);
      assert Utf8(s) == bs + Utf8(s[1..]);
      assert Utf8(t) == bt + Utf8(t[1..]);
      assert bs[0] == Utf8(s)[0] == bt[0];
      assert |bs| == |bt|;
      assert bs == Utf8(s)[..|bs|] == Utf8(t)[..|bt|] == bt;
      assert s[0] == t[0];
      assert Utf8(s[1..]) == Utf8(s)[|bs|..] == Utf8(t)[|bt|..] == Utf8(t[1..]);
      Utf8Injective(s[1..], t[1..]);
      assert s == [s[0]] + s[1..];
      assert t == [t[0]] + t[1..];
    }
  }
}
