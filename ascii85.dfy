/** Go's `encoding/ascii85` encoder (the btoa variant: four input bytes become
    five characters from '!' to 'u', and a group of four zero bytes becomes 'z').
    The hashes of the cache keys are produced with it. */
module Ascii85 {
  import opened Common

  const Z: byte := 'z' as int
  const Bang: byte := '!' as int

  /** `ascii85.MaxEncodedLen(n)`: room for `n` source bytes. */
  function MaxEncodedLen(n: nat): (m: nat)
    ensures n % 4 == 0 ==> m == n / 4 * 5
  {
    (n + 3) / 4 * 5
  }

  lemma MaxEncodedLenStep(rem: nat, k: nat)
    requires rem > 0 && k == if rem < 4 then rem else 4
    ensures MaxEncodedLen(rem) == 5 + MaxEncodedLen(rem - k)
  {
    if rem < 4 {
      assert (rem + 3) / 4 == 1;
    } else {
      var q := (rem - 1) / 4;
      assert (rem + 3) / 4 == q + 1;
    }
  }

  /** The big-endian value of a group of at most four bytes, missing bytes read
      as zero (the `switch` with `fallthrough` of Go's `Encode`). */
  function GroupValue(g: seq<byte>): (v: nat)
    requires 1 <= |g| <= 4
    ensures v < 0x1_0000_0000
  {
    var b1 := if |g| > 1 then g[1] else 0;
    var b2 := if |g| > 2 then g[2] else 0;
    var b3 := if |g| > 3 then g[3] else 0;
    (g[0] as int) * 0x100_0000 + (b1 as int) * 0x1_0000 + (b2 as int) * 0x100 + b3 as int
  }

  /** The last `k` base-85 digits of `v` as characters from '!', most
      significant first: what Go's inner loop writes from the right. */
  function Base85(v: nat, k: nat): (c: seq<byte>)
    ensures |c| == k
    ensures forall i :: 0 <= i < k ==> Bang <= c[i] <= Bang + 84
  {
    if k == 0 then [] else Base85(v / 85, k - 1) + [Bang + v % 85]
  }

  /** The characters one group produces. */
  function EncodeGroup(g: seq<byte>): (c: seq<byte>)
    requires 1 <= |g| <= 4
    ensures 1 <= |c| <= 5
  {
    var v := GroupValue(g);
    if v == 0 && |g| == 4 then [Z] else Base85(v, 5)[..|g| + 1]
  }

  /** The characters `ascii85.Encode(dst, src)` produces: group by group. */
  function Encode(src: seq<byte>): seq<byte>
    decreases |src|
  {
    if |src| == 0 then []
    else
      var k := if |src| < 4 then |src| else 4;
      EncodeGroup(src[..k]) + Encode(src[k..])
  }

  /** There is room for the characters in `MaxEncodedLen` bytes. */
  lemma {:induction false} EncodeBound(src: seq<byte>)
    ensures |Encode(src)| <= MaxEncodedLen(|src|)
    decreases |src|
  {
    if |src| > 0 {
      var k := if |src| < 4 then |src| else 4;
      EncodeBound(src[k..]);
      MaxEncodedLenStep(|src|, k);
    }
  }

  /** The whole buffer `make([]byte, MaxEncodedLen(len(src)))` after `Encode`:
      the characters, then the zero bytes `Encode` never reached. */
  function Buffer(src: seq<byte>): (b: seq<byte>)
    ensures |b| == MaxEncodedLen(|src|)
  {
    EncodeBound(src);
    var c := Encode(src);
    c + seq(MaxEncodedLen(|src|) - |c|, _ => 0)
  }

  /** The five bytes one iteration of Go's loop leaves at its position: the
      bytes are first cleared, then 'z' or all five digits are written. */
  function Block(g: seq<byte>): (b: seq<byte>)
    requires 1 <= |g| <= 4
    ensures |b| == 5 && b[..|EncodeGroup(g)|] == EncodeGroup(g)
    ensures |g| == 4 ==> forall i :: |EncodeGroup(g)| <= i < 5 ==> b[i] == 0
  {
    var v := GroupValue(g);
    if v == 0 && |g| == 4 then [Z, 0, 0, 0, 0] else Base85(v, 5)
  }

  /** From position `from` on, `a` holds zeros or the bytes of `b`. */
  predicate ZeroOrKept(a: seq<byte>, b: seq<byte>, from: nat)
    requires |a| == |b|
  {
    forall k :: from <= k < |a| ==> a[k] == 0 || a[k] == b[k]
  }

  /** From position `from` on, `a` holds the bytes of `b`. */
  predicate KeptFrom(a: seq<byte>, b: seq<byte>, from: nat)
    requires |a| == |b|
  {
    forall k :: from <= k < |a| ==> a[k] == b[k]
  }

  /** The invariant of Go's outer loop after `q` groups: `s` source bytes read,
      `p` characters written into `buf`, which started as `orig`. */
  ghost predicate EncodeLoopInv(src: seq<byte>, buf: seq<byte>, orig: seq<byte>, s: nat, p: nat, q: nat)
  {
    && |buf| == |orig| >= MaxEncodedLen(|src|)
    && s <= |src| && (s == 4 * q || (s == |src| && |src| % 4 != 0))
    && (s == 4 * q ==> p + MaxEncodedLen(|src| - s) <= MaxEncodedLen(|src|))
    && p <= |buf|
    && Encode(src) == buf[..p] + Encode(src[s..])
    && (s == 4 * q ==> ZeroOrKept(buf, orig, p))
    && KeptFrom(buf, orig, MaxEncodedLen(|src|))
  }

  /** Go's `Encode` writing into `dst` in place; returns the count Go returns.
      Nothing at or past `MaxEncodedLen(len(src))` is touched, and after a run
      over full groups only zeros it wrote itself follow the count. */
  method EncodeInto(dst: array<byte>, src: seq<byte>) returns (n: nat)
    requires dst.Length >= MaxEncodedLen(|src|)
    modifies dst
    ensures n <= dst.Length && dst[..n] == Encode(src)
    ensures |src| % 4 == 0 ==> ZeroOrKept(dst[..], old(dst[..]), n)
    ensures KeptFrom(dst[..], old(dst[..]), MaxEncodedLen(|src|))
  {
    ghost var orig := dst[..];
    var s, p: nat := 0, 0;
    ghost var q: nat := 0;
    LoopStart(src, orig);
    while s < |src|
      invariant EncodeLoopInv(src, dst[..], orig, s, p, q)
      decreases |src| - s
    {
      s, p := EncodeStep(dst, src, s, p, q, orig);
      q := q + 1;
    }
    LoopDone(src, dst[..], orig, s, p, q);
    n := p;
  }

  /** One round of Go's outer loop, from `s` source bytes read and `p`
      characters written. */
  method EncodeStep(dst: array<byte>, src: seq<byte>, s: nat, p: nat, ghost q: nat, ghost orig: seq<byte>)
      returns (s': nat, p': nat)
    requires s < |src| && EncodeLoopInv(src, dst[..], orig, s, p, q)
    modifies dst
    ensures s < s' && EncodeLoopInv(src, dst[..], orig, s', p', q + 1)
  {
    var k := if |src| - s < 4 then |src| - s else 4;
    LoopRoom(src, dst[..], orig, s, p, q);
    ghost var mid := dst[..];
    var g := src[s..s + k];
    var m := PutGroup(dst, p, g);
    ghost var after := dst[..];
    assert after == mid[..p] + Block(g) + mid[p + 5..];
    AfterGroup(mid, after, orig, p, g, MaxEncodedLen(|src|));
    LoopStep(src, mid, after, orig, s, p, q, k, m);
    s', p' := s + k, p + m;
    assert dst[..] == after;
  }

  lemma LoopStart(src: seq<byte>, buf: seq<byte>)
    requires |buf| >= MaxEncodedLen(|src|)
    ensures EncodeLoopInv(src, buf, buf, 0, 0, 0)
  {
    assert src[0..] == src && buf[..0] == [];
    Regroup(Encode(src), [], Encode(src), [], Encode(src), []);
  }

  /** When the source is used up the invariant gives the method's contract. */
  lemma LoopDone(src: seq<byte>, buf: seq<byte>, orig: seq<byte>, s: nat, p: nat, q: nat)
    requires EncodeLoopInv(src, buf, orig, s, p, q) && s >= |src|
    ensures p <= |buf| && buf[..p] == Encode(src)
    ensures |src| % 4 == 0 ==> ZeroOrKept(buf, orig, p)
  {
    assert src[s..] == [];
    Regroup(Encode(src), buf[..p], Encode(src[s..]), [], [], buf[..p]);
  }

  /** While source bytes remain there is room for a whole group. */
  lemma LoopRoom(src: seq<byte>, buf: seq<byte>, orig: seq<byte>, s: nat, p: nat, q: nat)
    requires EncodeLoopInv(src, buf, orig, s, p, q) && s < |src|
    ensures s == 4 * q && p + 5 <= MaxEncodedLen(|src|) <= |buf| == |orig|
  {
    var rem := |src| - s;
    MaxEncodedLenStep(rem, if rem < 4 then rem else 4);
  }

  /** One group written by `PutGroup` keeps the loop invariant; `after` is
      the buffer as `AfterGroup` describes it. */
  lemma LoopStep(src: seq<byte>, mid: seq<byte>, after: seq<byte>, orig: seq<byte>, s: nat, p: nat, q: nat, k: nat, m: nat)
    requires EncodeLoopInv(src, mid, orig, s, p, q) && s < |src|
    requires k == if |src| - s < 4 then |src| - s else 4
    requires m == |EncodeGroup(src[s..s + k])| && p + m <= |after|
    requires |after| == |orig| && KeptFrom(after, orig, MaxEncodedLen(|src|))
    requires k == 4 ==> ZeroOrKept(after, orig, p + m)
    requires after[..p + m] == mid[..p] + EncodeGroup(src[s..s + k])
    ensures EncodeLoopInv(src, after, orig, s + k, p + m, q + 1)
  {
    LoopCounts(|src|, s, p, q, k, m);
    TextStep(src, mid[..p], after[..p + m], s, k);
  }

  /** The counting part of the loop invariant after one more group. */
  lemma LoopCounts(n: nat, s: nat, p: nat, q: nat, k: nat, m: nat)
    requires s < n && s == 4 * q && p + MaxEncodedLen(n - s) <= MaxEncodedLen(n)
    requires k == (if n - s < 4 then n - s else 4) && m <= 5
    ensures s + k <= n && (s + k == 4 * (q + 1) || (s + k == n && n % 4 != 0))
    ensures s + k == 4 * (q + 1) ==> p + m + MaxEncodedLen(n - (s + k)) <= MaxEncodedLen(n)
  {
    MaxEncodedLenStep(n - s, k);
    if k < 4 {
      PartialGroupMod(q, k);
    }
  }

  /** The characters of one more group extend the text written so far. */
  lemma TextStep(src: seq<byte>, written: seq<byte>, written': seq<byte>, s: nat, k: nat)
    requires s < |src| && k == (if |src| - s < 4 then |src| - s else 4)
    requires Encode(src) == written + Encode(src[s..])
    requires written' == written + EncodeGroup(src[s..s + k])
    ensures Encode(src) == written' + Encode(src[s + k..])
  {
    EncodeCons(src[s..], k);
    SliceOfSuffix(src, s, k);
    Regroup(Encode(src), written, Encode(src[s..]), EncodeGroup(src[s..s + k]), Encode(src[s + k..]), written');
  }

  /** `Encode` peels off one group. */
  lemma EncodeCons(t: seq<byte>, k: nat)
    requires |t| > 0 && k == (if |t| < 4 then |t| else 4)
    ensures Encode(t) == EncodeGroup(t[..k]) + Encode(t[k..])
  {
  }

  lemma PartialGroupMod(q: nat, k: nat)
    requires k < 4
    ensures (4 * q + k) % 4 == k
  {
  }

  /** What one group's write does to the whole buffer, in terms of the loop's
      invariants. */
  lemma AfterGroup(before: seq<byte>, after: seq<byte>, orig: seq<byte>, p: nat, g: seq<byte>, limit: nat)
    requires 1 <= |g| <= 4 && |before| == |orig| && p + 5 <= limit <= |before|
    requires after == before[..p] + Block(g) + before[p + 5..]
    requires KeptFrom(before, orig, limit)
    requires |g| == 4 ==> ZeroOrKept(before, orig, p)
    ensures |after| == |orig| && KeptFrom(after, orig, limit)
    ensures after[..p + |EncodeGroup(g)|] == before[..p] + EncodeGroup(g)
    ensures |g| == 4 ==> ZeroOrKept(after, orig, p + |EncodeGroup(g)|)
  {
    var m := |EncodeGroup(g)|;
    assert after[..p + m] == before[..p] + Block(g)[..m];
    forall k | limit <= k < |after|
      ensures after[k] == orig[k]
    {
      assert after[k] == before[k];
    }
    if |g| == 4 {
      forall k | p + m <= k < |after|
        ensures after[k] == 0 || after[k] == orig[k]
      {
        if k >= p + 5 {
          assert after[k] == before[k];
        } else {
          assert after[k] == Block(g)[k - p];
        }
      }
    }
  }

  /** One iteration of Go's outer loop: clear five bytes at `p`, then write the
      'z' of an all-zero full group or the group's digits. */
  method PutGroup(dst: array<byte>, p: nat, g: seq<byte>) returns (m: nat)
    requires 1 <= |g| <= 4 && p + 5 <= dst.Length
    modifies dst
    ensures m == |EncodeGroup(g)|
    ensures dst[..] == old(dst[..p]) + Block(g) + old(dst[p + 5..])
  {
    dst[p] := 0;
    dst[p + 1] := 0;
    dst[p + 2] := 0;
    dst[p + 3] := 0;
    dst[p + 4] := 0;
    var v := GroupValue(g);
    if v == 0 && |g| >= 4 {
      dst[p] := Z;
      m := 1;
    } else {
      EncodeDigits(dst, p, v);
      m := |g| + 1;
    }
  }

  /** Go's inner loop `for i := 4; i >= 0; i-- { dst[i] = '!' + byte(v%85); v /= 85 }`. */
  method EncodeDigits(dst: array<byte>, p: nat, v0: nat)
    requires p + 5 <= dst.Length
    modifies dst
    ensures dst[..] == old(dst[..p]) + Base85(v0, 5) + old(dst[p + 5..])
  {
    ghost var orig := dst[..];
    var i, v := 4, v0;
    while i >= 0
      invariant -1 <= i <= 4
      invariant Base85(v0, 5) == Base85(v, i + 1) + dst[p + i + 1..p + 5]
      invariant forall k :: 0 <= k < dst.Length && !(p + i < k < p + 5) ==> dst[k] == orig[k]
    {
      dst[p + i] := Bang + v % 85;
      assert dst[p + i..p + 5] == [Bang + v % 85] + dst[p + i + 1..p + 5];
      v, i := v / 85, i - 1;
    }
    Splice(dst[..], orig, p, Base85(v0, 5));
  }

  /** A buffer that differs from `orig` only in the five bytes at `p`. */
  lemma Splice(buf: seq<byte>, orig: seq<byte>, p: nat, blk: seq<byte>)
    requires |buf| == |orig| && p + 5 <= |buf| && buf[p..p + 5] == blk
    requires forall k :: 0 <= k < |buf| && !(p <= k < p + 5) ==> buf[k] == orig[k]
    ensures buf == orig[..p] + blk + orig[p + 5..]
  {
    var r := orig[..p] + blk + orig[p + 5..];
    forall k | 0 <= k < |buf|
      ensures buf[k] == r[k]
    {
      if k < p {
        assert r[k] == orig[k];
      } else if k < p + 5 {
        assert r[k] == blk[k - p] == buf[k];
      } else {
        assert r[k] == orig[k];
      }
    }
  }

  // ---------------------------------------------------------------------------
  // What the characters look like
  // ---------------------------------------------------------------------------

  /** A full non-zero group gives five characters from '!' to 'u'; an all-zero
      group gives the single character 'z'; no character is a zero byte. */
  lemma GroupShape(g: seq<byte>)
    requires |g| == 4
    ensures GroupValue(g) == 0 ==> EncodeGroup(g) == [Z]
    ensures GroupValue(g) != 0 ==> |EncodeGroup(g)| == 5 && forall i :: 0 <= i < 5 ==> Bang <= EncodeGroup(g)[i] <= 'u' as int
  {
  }

  /** The buffer for a SHA-256 digest is 40 bytes, and its text part is between
      8 characters (all groups zero) and 40 (no group zero). */
  lemma DigestBufferLength(d: seq<byte>)
    requires |d| == 32
    ensures |Buffer(d)| == 40
    ensures 8 <= |Encode(d)| <= 40
  {
    EncodeLength(d);
  }

  lemma {:induction false} EncodeLength(src: seq<byte>)
    requires |src| % 4 == 0
    ensures |src| / 4 <= |Encode(src)| <= |src| / 4 * 5
    decreases |src|
  {
    if |src| > 0 {
      EncodeLength(src[4..]);
    }
  }

  // ---------------------------------------------------------------------------
  // A decoder for full groups: the encoder's inverse, hence its injectivity
  // ---------------------------------------------------------------------------

  /** The big-endian bytes of a 32-bit value. */
  function Unpack(v: nat): (g: seq<byte>)
    requires v < 0x1_0000_0000
    ensures |g| == 4
  {
    var w2 := v / 0x100;
    var w1 := w2 / 0x100;
    [w1 / 0x100, w1 % 0x100, w2 % 0x100, v % 0x100]
  }

  /** The value five base-85 characters stand for. */
  function Value85(c: seq<byte>): int
    requires |c| == 5
  {
    var d0, d1, d2, d3, d4 := c[0] as int - 33, c[1] as int - 33, c[2] as int - 33, c[3] as int - 33, c[4] as int - 33;
    (((d0 * 85 + d1) * 85 + d2) * 85 + d3) * 85 + d4
  }

  /** Reads groups back until the text ends or a zero byte of the buffer starts. */
  function Decode(c: seq<byte>): seq<byte>
    decreases |c|
  {
    if |c| == 0 || c[0] == 0 then []
    else if c[0] == Z then [0, 0, 0, 0] + Decode(c[1..])
    else if |c| >= 5 && 0 <= Value85(c[..5]) < 0x1_0000_0000 then Unpack(Value85(c[..5])) + Decode(c[5..])
    else []
  }

  lemma UnpackGroupValue(g: seq<byte>)
    requires |g| == 4
    ensures Unpack(GroupValue(g)) == g
  {
    var v := GroupValue(g);
    var b0, b1, b2, b3 := g[0] as int, g[1] as int, g[2] as int, g[3] as int;
    var w1, w2 := b0 * 0x100 + b1, (b0 * 0x100 + b1) * 0x100 + b2;
    DivMod256(w1, b0, b1);
    DivMod256(w2, w1, b2);
    DivMod256(v, w2, b3);
  }

  lemma DivMod256(x: int, q: int, r: int)
    requires x == q * 0x100 + r && 0 <= r < 0x100
    ensures x / 0x100 == q && x % 0x100 == r
  {
  }

  lemma Value85Base85(v: nat)
    requires v < 0x1_0000_0000
    ensures Value85(Base85(v, 5)) == v
  {
    var v1 := v / 85;
    var v2 := v1 / 85;
    var v3 := v2 / 85;
    var v4 := v3 / 85;
    Base85Five(v);
    assert v4 < 85 by {
      assert v1 < 50529028;
      assert v2 < 594460;
      assert v3 < 6994;
    }
    assert v == (((v4 * 85 + v3 % 85) * 85 + v2 % 85) * 85 + v1 % 85) * 85 + v % 85 by {
      assert v == v1 * 85 + v % 85;
      assert v1 == v2 * 85 + v1 % 85;
      assert v2 == v3 * 85 + v2 % 85;
      assert v3 == v4 * 85 + v3 % 85;
    }
  }

  /** Five digits written out. */
  lemma Base85Five(v: nat)
    ensures Base85(v, 5) == [Bang + v / 85 / 85 / 85 / 85 % 85, Bang + v / 85 / 85 / 85 % 85,
                             Bang + v / 85 / 85 % 85, Bang + v / 85 % 85, Bang + v % 85]
  {
    var v1 := v / 85;
    var v2 := v1 / 85;
    var v3 := v2 / 85;
    var v4 := v3 / 85;
    assert Base85(v, 5) == Base85(v1, 4) + [Bang + v % 85];
    assert Base85(v1, 4) == Base85(v2, 3) + [Bang + v1 % 85];
    assert Base85(v2, 3) == Base85(v3, 2) + [Bang + v2 % 85];
    assert Base85(v3, 2) == Base85(v4, 1) + [Bang + v3 % 85];
    assert Base85(v4, 1) == [Bang + v4 % 85];
  }

  /** One full group decodes back from the front of any text. */
  lemma DecodeGroup(g: seq<byte>, t: seq<byte>)
    requires |g| == 4
    ensures Decode(EncodeGroup(g) + t) == g + Decode(t)
  {
    var c := EncodeGroup(g);
    UnpackGroupValue(g);
    var v := GroupValue(g);
    if v == 0 {
      assert g == [0, 0, 0, 0];
      assert (c + t)[1..] == t;
    } else {
      Value85Base85(v);
      assert (c + t)[..5] == c;
      assert (c + t)[5..] == t;
    }
  }

  /** Decoding the characters of full groups, followed by any text, gives the
      source followed by whatever that text decodes to. */
  lemma {:induction false} DecodeEncode(src: seq<byte>, t: seq<byte>)
    requires |src| % 4 == 0
    ensures Decode(Encode(src) + t) == src + Decode(t)
    decreases |src|
  {
    if |src| == 0 {
      assert Encode(src) + t == t;
    } else {
      var g, rest := src[..4], src[4..];
      EncodeCons(src, 4);
      Assoc(EncodeGroup(g), Encode(rest), t);
      DecodeGroup(g, Encode(rest) + t);
      DecodeEncode(rest, t);
      Assoc(g, rest, Decode(t));
      SplitAt(src, 4);
    }
  }

  /** Zero bytes after the text decode to nothing. */
  lemma DecodeZeros(pad: nat)
    ensures Decode(seq(pad, _ => 0)) == []
  {
  }

  /** What Go's hash code relies on: encoding into a freshly zeroed buffer of
      `MaxEncodedLen` bytes leaves exactly `Buffer(src)` there. */
  lemma BufferAfterEncode(buf: seq<byte>, orig: seq<byte>, n: nat, src: seq<byte>)
    requires |src| % 4 == 0 && |buf| == |orig| == MaxEncodedLen(|src|)
    requires forall k :: 0 <= k < |orig| ==> orig[k] == 0
    requires n <= |buf| && buf[..n] == Encode(src) && ZeroOrKept(buf, orig, n)
    ensures buf == Buffer(src)
  {
    var b := Buffer(src);
    forall k | 0 <= k < |buf|
      ensures buf[k] == b[k]
    {
      if k < n {
        assert buf[k] == buf[..n][k];
      }
    }
  }

  /** Four zero bytes per 'z': the source of all-zero groups encodes to 'z's only. */
  lemma {:induction false} EncodeZeros(q: nat)
    ensures Encode(seq(4 * q, _ => 0)) == seq(q, _ => Z)
  {
    if q > 0 {
      var src: seq<byte> := seq(4 * q, _ => 0);
      EncodeCons(src, 4);
      assert src[..4] == [0, 0, 0, 0];
      assert src[4..] == seq(4 * (q - 1), _ => 0);
      EncodeZeros(q - 1);
      assert seq(q, _ => Z) == [Z] + seq(q - 1, _ => Z);
    }
  }

  /** Distinct sources of full groups give distinct buffers. */
  lemma BufferInjective(a: seq<byte>, b: seq<byte>)
    requires |a| == |b| && |a| % 4 == 0
    requires Buffer(a) == Buffer(b)
    ensures a == b
  {
    DecodeBuffer(a);
    DecodeBuffer(b);
  }

  /** The whole buffer, trailing zeros included, decodes back to the source. */
  lemma DecodeBuffer(a: seq<byte>)
    requires |a| % 4 == 0
    ensures Decode(Buffer(a)) == a
  {
    EncodeBound(a);
    var zeros: seq<byte> := seq(MaxEncodedLen(|a|) - |Encode(a)|, _ => 0);
    assert Buffer(a) == Encode(a) + zeros;
    DecodeEncode(a, zeros);
    DecodeZeros(|zeros|);
    assert a + [] == a;
  }
}
