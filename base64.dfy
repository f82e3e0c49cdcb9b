/** Go's `base64.URLEncoding`: the URL and file name safe alphabet of section 5
    of RFC 4648, with `=` padding. `EncodeToString` and `DecodeString` are
    written on whole groups: three bytes become four symbols, and the last
    one or two bytes become a padded group. */
module Base64 {
  import opened Common
  import opened GoErrors

  const Pad: char := '='

  /** What `DecodeString` reports for malformed text. */
  const CorruptText: string := "illegal base64 data"

  /** The symbol of a six-bit value: A-Z, a-z, 0-9, '-', '_'. */
  function Sym(v: nat): (c: char)
    requires v < 64
    ensures c != Pad && c != '\n' && c != '\r'
  {
    if v < 26 then ('A' as int + v) as char
    else if v < 52 then ('a' as int + (v - 26)) as char
    else if v < 62 then ('0' as int + (v - 52)) as char
    else if v == 62 then '-'
    else '_'
  }

  /** The six-bit value of a symbol, if it is one (the decoder's map). */
  function Val(c: char): (r: Option<nat>)
    ensures r.Some? ==> r.value < 64 && Sym(r.value) == c
  {
    if 'A' <= c <= 'Z' then Some(c as int - 'A' as int)
    else if 'a' <= c <= 'z' then Some(c as int - 'a' as int + 26)
    else if '0' <= c <= '9' then Some(c as int - '0' as int + 52)
    else if c == '-' then Some(62)
    else if c == '_' then Some(63)
    else None
  }

  lemma ValSym(v: nat)
    requires v < 64
    ensures Val(Sym(v)) == Some(v)
  {
  }

  /** Four symbols for three bytes. */
  function EncodeGroup(b0: byte, b1: byte, b2: byte): string
  {
    [Sym(b0 / 4), Sym((b0 % 4) * 16 + b1 / 16), Sym((b1 % 16) * 4 + b2 / 64), Sym(b2 % 64)]
  }

  /** `base64.URLEncoding.EncodeToString`. */
  function Encode(b: seq<byte>): string
    decreases |b|
  {
    if |b| == 0 then ""
    else if |b| == 1 then [Sym(b[0] / 4), Sym((b[0] % 4) * 16), Pad, Pad]
    else if |b| == 2 then [Sym(b[0] / 4), Sym((b[0] % 4) * 16 + b[1] / 16), Sym((b[1] % 16) * 4), Pad]
    else EncodeGroup(b[0], b[1], b[2]) + Encode(b[3..])
  }

  /** `DecodeString` skips carriage returns and newlines wherever they are. */
  function StripNewlines(s: string): (t: string)
    ensures '\n' !in t && '\r' !in t
    ensures '\n' !in s && '\r' !in s ==> t == s
    decreases |s|
  {
    if |s| == 0 then ""
    else if s[0] == '\n' || s[0] == '\r' then StripNewlines(s[1..])
    else [s[0]] + StripNewlines(s[1..])
  }

  /** The groups of a text without newlines: full groups of four symbols, the
      last of which may end in "==" (one byte) or "=" (two bytes); anything
      else, and a text whose length is not a multiple of four, is corrupt.
      Unused low bits of a padded group are not checked, as in Go's
      non-strict decoder. */
  function DecodeGroups(t: string): (r: Result<seq<byte>, GoError>)
    ensures r.Err? ==> r.error == Plain(CorruptText)
    decreases |t|
  {
    if |t| == 0 then Ok([])
    else if |t| < 4 then Err(Plain(CorruptText))
    else
      var v0, v1, v2, v3 := Val(t[0]), Val(t[1]), Val(t[2]), Val(t[3]);
      if v0.Some? && v1.Some? && v2.Some? && v3.Some? then
        var b0 := v0.value * 4 + v1.value / 16;
        var b1 := (v1.value % 16) * 16 + v2.value / 4;
        var b2 := (v2.value % 4) * 64 + v3.value;
        match DecodeGroups(t[4..])
        case Err(e) => Err(e)
        case Ok(rest) => Ok([b0, b1, b2] + rest)
      else if |t| == 4 && v0.Some? && v1.Some? && t[2] == Pad && t[3] == Pad then
        Ok([v0.value * 4 + v1.value / 16])
      else if |t| == 4 && v0.Some? && v1.Some? && v2.Some? && t[3] == Pad then
        Ok([v0.value * 4 + v1.value / 16, (v1.value % 16) * 16 + v2.value / 4])
      else Err(Plain(CorruptText))
  }

  /** `base64.URLEncoding.DecodeString`. */
  function Decode(s: string): (r: Result<seq<byte>, GoError>)
    ensures r.Err? ==> r.error == Plain(CorruptText)
  {
    DecodeGroups(StripNewlines(s))
  }

  // ---------------------------------------------------------------------------
  // Properties
  // ---------------------------------------------------------------------------

  /** A padded group of one byte decodes to that byte. */
  lemma OneByteGroup(b0: byte)
    ensures DecodeGroups(Encode([b0])) == Ok([b0])
  {
    var s := Encode([b0]);
    ValSym(b0 / 4);
    ValSym((b0 % 4) * 16);
    assert Val(Pad).None?;
    assert s == [Sym(b0 / 4), Sym((b0 % 4) * 16), Pad, Pad];
    assert (b0 / 4) * 4 + ((b0 % 4) * 16) / 16 == b0;
  }

  /** A padded group of two bytes decodes to those bytes. */
  lemma TwoByteGroup(b0: byte, b1: byte)
    ensures DecodeGroups(Encode([b0, b1])) == Ok([b0, b1])
  {
    var s := Encode([b0, b1]);
    var v0, v1, v2 := b0 / 4, (b0 % 4) * 16 + b1 / 16, (b1 % 16) * 4;
    ValSym(v0);
    ValSym(v1);
    ValSym(v2);
    assert Val(Pad).None?;
    assert s == [Sym(v0), Sym(v1), Sym(v2), Pad];
    assert v0 * 4 + v1 / 16 == b0;
    assert (v1 % 16) * 16 + v2 / 4 == b1;
  }

  /** A full group decodes to its three bytes, followed by what the rest
      decodes to. */
  lemma FullGroup(b0: byte, b1: byte, b2: byte, rest: string, r: seq<byte>)
    requires DecodeGroups(rest) == Ok(r)
    ensures DecodeGroups(EncodeGroup(b0, b1, b2) + rest) == Ok([b0, b1, b2] + r)
  {
    var t := EncodeGroup(b0, b1, b2) + rest;
    var v0, v1, v2, v3 := b0 / 4, (b0 % 4) * 16 + b1 / 16, (b1 % 16) * 4 + b2 / 64, b2 % 64;
    ValSym(v0);
    ValSym(v1);
    ValSym(v2);
    ValSym(v3);
    assert t[0] == Sym(v0) && t[1] == Sym(v1) && t[2] == Sym(v2) && t[3] == Sym(v3);
    assert t[4..] == rest;
    assert v0 * 4 + v1 / 16 == b0;
    assert (v1 % 16) * 16 + v2 / 4 == b1;
    assert (v2 % 4) * 64 + v3 == b2;
  }

  /** With three bytes or more, the first group's symbols come first. */
  lemma EncodeFull(b: seq<byte>)
    requires |b| >= 3
    ensures Encode(b) == EncodeGroup(b[0], b[1], b[2]) + Encode(b[3..])
  {
  }

  /** The encoding is written on one line. */
  lemma {:induction false} EncodeHasNoNewlines(b: seq<byte>)
    ensures '\n' !in Encode(b) && '\r' !in Encode(b)
    decreases |b|
  {
    if |b| >= 3 {
      EncodeHasNoNewlines(b[3..]);
      EncodeFull(b);
    }
  }

  /** Every three bytes, and a last one or two, take four symbols. */
  lemma {:induction false} EncodedLength(b: seq<byte>)
    ensures |Encode(b)| == 4 * ((|b| + 2) / 3)
    decreases |b|
  {
    if |b| >= 3 {
      EncodedLength(b[3..]);
      EncodeFull(b);
      assert (|b| + 2) / 3 == (|b[3..]| + 2) / 3 + 1;
    }
  }

  /** Decoding undoes encoding, for every byte string. */
  lemma DecodeEncode(b: seq<byte>)
    ensures Decode(Encode(b)) == Ok(b)
  {
    EncodeHasNoNewlines(b);
    assert StripNewlines(Encode(b)) == Encode(b);
    DecodeGroupsEncode(b);
  }

  lemma {:induction false} DecodeGroupsEncode(b: seq<byte>)
    ensures DecodeGroups(Encode(b)) == Ok(b)
    decreases |b|
  {
    if |b| == 1 {
      OneByteGroup(b[0]);
      assert b == [b[0]];
    } else if |b| == 2 {
      TwoByteGroup(b[0], b[1]);
      assert b == [b[0], b[1]];
    } else if |b| >= 3 {
      DecodeGroupsEncode(b[3..]);
      LeadingGroup(b);
    }
  }

  /** The first full group of a longer byte string decodes in front of the
      rest. */
  lemma LeadingGroup(b: seq<byte>)
    requires |b| >= 3 && DecodeGroups(Encode(b[3..])) == Ok(b[3..])
    ensures DecodeGroups(Encode(b)) == Ok(b)
  {
    var tail := b[3..];
    EncodeFull(b);
    FullGroup(b[0], b[1], b[2], Encode(tail), tail);
    FirstThree(b);
  }

  /** A text whose length, newlines left out, is not a multiple of four is
      rejected. */
  lemma {:induction false} UnpaddedRejected(t: string)
    requires '\n' !in t && '\r' !in t && |t| % 4 != 0
    ensures Decode(t).Err?
    decreases |t|
  {
    assert StripNewlines(t) == t;
    if |t| >= 4 {
      assert '\n' !in t[4..] && '\r' !in t[4..];
      UnpaddedRejected(t[4..]);
      assert StripNewlines(t[4..]) == t[4..];
    }
  }

  /** Padding in the first two places of a group, or a group after a padded
      one, is rejected. */
  lemma MisplacedPadRejected(t: string)
    requires '\n' !in t && '\r' !in t && |t| >= 4
    requires t[0] == Pad || t[1] == Pad || (|t| > 4 && (t[2] == Pad || t[3] == Pad))
    ensures Decode(t).Err?
  {
    assert StripNewlines(t) == t;
    assert Val(Pad).None?;
  }
}
