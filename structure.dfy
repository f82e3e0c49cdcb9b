/** The runner's input and output values and their hashes
    (`internal/dbrunner/structure.go`). */
module Structure {
  import opened Common
  import opened GoStrings
  import opened GoErrors
  import Ascii85

  /** A SHA-256 digest. */
  type Digest = d: seq<byte> | |d| == 32 witness seq(32, _ => 0)

  /** `dbrunner.Input`: the schema script and the query. */
  datatype Input = Input(init: string, query: string)

  /** One entry of a result row: the column name and the value's text, `None`
      for a nil `*string`. */
  datatype Cell = Cell(column: string, value: Option<string>)

  /** `dbrunner.Output`: the rows of a result, in order. A nil and an empty
      `Result` slice are the same value here. */
  datatype Output = Output(result: seq<seq<Cell>>)

  /** The library code the core calls and this model does not open up:
      `FormatSQL` (go-sqllexer), SHA-256, gob encoding of the rows, and JSON
      encoding of an `Output`. `json.Marshal` cannot fail on an `Output` (it
      holds only strings and pointers to strings), so it is total here. */
  datatype Primitives = Primitives(
    formatSQL: string -> Result<string, GoError>,
    sha256: seq<byte> -> Digest,
    gob: seq<seq<Cell>> -> Result<seq<byte>, GoError>,
    marshal: Output -> string,
    unmarshal: string -> Result<Output, GoError>)

  // ---------------------------------------------------------------------------
  // Normalize
  // ---------------------------------------------------------------------------

  /** `Input.Normalize`: the query goes through `FormatSQL`, the schema script
      is kept as it is. On failure Go also returns an empty `Input`, which every
      caller discards; only the error is kept here. */
  function Normalize(p: Primitives, i: Input): (r: Result<Input, GoError>)
    ensures r.Ok? <==> p.formatSQL(i.query).Ok?
    ensures r.Ok? ==> r.value.init == i.init && r.value.query == p.formatSQL(i.query).value
    ensures r.Err? ==> r.error == p.formatSQL(i.query).error
  {
    match p.formatSQL(i.query)
    case Err(e) => Err(e)
    case Ok(q) => Ok(Input(i.init, q))
  }

  /** `FormatSQL` maps its own output to itself. The code never promises this;
      statements that need it say so. */
  predicate FormatIdempotentOn(p: Primitives, q: string)
  {
    p.formatSQL(q).Ok? ==> p.formatSQL(p.formatSQL(q).value) == p.formatSQL(q)
  }

  /** Normalizing a normalized input changes nothing, when `FormatSQL` is
      idempotent on the query. */
  lemma NormalizeTwice(p: Primitives, i: Input)
    requires FormatIdempotentOn(p, i.query)
    requires Normalize(p, i).Ok?
    ensures Normalize(p, Normalize(p, i).value) == Normalize(p, i)
  {
  }

  // ---------------------------------------------------------------------------
  // The hash text
  // ---------------------------------------------------------------------------

  /** Go's `string(b)` for a byte slice: here every byte becomes the character
      with the same code (the hash buffers hold ASCII and zero bytes only). */
  function Text(b: seq<byte>): (s: string)
    ensures |s| == |b| && forall k :: 0 <= k < |b| ==> s[k] as int == b[k]
  {
    seq(|b|, k requires 0 <= k < |b| => b[k] as char)
  }

  /** The hash a digest turns into: Ascii85 into a zeroed 40-byte buffer whose
      whole length, unused tail included, becomes the string. */
  function HashText(d: Digest): string
  {
    Text(Ascii85.Buffer(d))
  }

  /** What `Input.Hash` hashes: the schema bytes followed by the query bytes. */
  function InputDigest(p: Primitives, i: Input): Digest
  {
    p.sha256(Utf8(i.init) + Utf8(i.query))
  }

  /** The value of `Input.Hash`. */
  function InputHash(p: Primitives, i: Input): string
  {
    HashText(InputDigest(p, i))
  }

  /** The value of `Output.Hash`: gob encoding of `Result` only, then SHA-256;
      fails exactly when gob fails. */
  function OutputHash(p: Primitives, o: Output): (r: Result<string, GoError>)
    ensures r.Err? <==> p.gob(o.result).Err?
  {
    match p.gob(o.result)
    case Err(e) => Err(e)
    case Ok(b) => Ok(HashText(p.sha256(b)))
  }

  // ---------------------------------------------------------------------------
  // The hashing code, step by step
  // ---------------------------------------------------------------------------

  /** `sha256.New()`: `Write` appends to what has been written; `Sum(nil)` is
      the digest of everything written so far and changes nothing. */
  class Hasher {
    const sum: seq<byte> -> Digest
    var written: seq<byte>

    constructor (sum: seq<byte> -> Digest)
      ensures this.sum == sum && written == []
    {
      this.sum := sum;
      written := [];
    }

    method Write(b: seq<byte>)
      modifies this
      ensures written == old(written) + b
    {
      written := written + b;
    }

    function Sum(): Digest
      reads this
    {
      sum(written)
    }
  }

  /** The common tail of both `Hash` methods: `make` a buffer of
      `MaxEncodedLen(32)` zero bytes, `ascii85.Encode` into it ignoring the
      count, and convert the whole buffer to a string. */
  method EncodeDigest(d: Digest) returns (s: string)
    ensures s == HashText(d)
  {
    var output := new byte[Ascii85.MaxEncodedLen(|d|)](_ => 0);
    ghost var zeroed := output[..];
    var n := Ascii85.EncodeInto(output, d);
    Ascii85.BufferAfterEncode(output[..], zeroed, n, d);
    s := Text(output[..]);
  }

  /** `Input.Hash`. */
  method HashInput(p: Primitives, i: Input) returns (s: string)
    ensures s == InputHash(p, i)
  {
    var hash := new Hasher(p.sha256);
    hash.Write(Utf8(i.init));
    hash.Write(Utf8(i.query));
    assert hash.written == Utf8(i.init) + Utf8(i.query);
    var hashed := hash.Sum();
    s := EncodeDigest(hashed);
  }

  /** `Output.Hash`: the gob encoder writes into the hasher. */
  method HashOutput(p: Primitives, o: Output) returns (r: Result<string, GoError>)
    ensures r == OutputHash(p, o)
  {
    var hasher := new Hasher(p.sha256);
    match p.gob(o.result)
    case Err(e) =>
      return Err(e);
    case Ok(b) =>
      hasher.Write(b);
      assert hasher.written == b;
      var hashed := hasher.Sum();
      var s := EncodeDigest(hashed);
      return Ok(s);
  }

  // ---------------------------------------------------------------------------
  // Properties of the hashes
  // ---------------------------------------------------------------------------

  /** Both hashes are always 40 characters long, whatever the digest, and
      every character is a base-85 digit, a 'z' or a zero byte. */
  lemma HashShape(d: Digest)
    ensures |HashText(d)| == 40
    ensures forall k :: 0 <= k < 40 ==> var c := HashText(d)[k];
      ('!' <= c <= 'u') || c == 'z' || c == 0 as char
  {
    Ascii85.DigestBufferLength(d);
    Ascii85.EncodeBound(d);
    var c := Ascii85.Encode(d);
    EncodeAlphabet(d);
    var b := Ascii85.Buffer(d);
    forall k | 0 <= k < 40
      ensures b[k] == 0 || b[k] == 'z' as int || ('!' as int <= b[k] <= 'u' as int)
    {
      if k < |c| {
        assert b[k] == c[k];
      }
    }
  }

  /** Every character of the encoding is a digit from '!' to 'u' or a 'z'. */
  lemma {:induction false} EncodeAlphabet(src: seq<byte>)
    ensures forall k :: 0 <= k < |Ascii85.Encode(src)| ==>
      var c := Ascii85.Encode(src)[k]; c == 'z' as int || ('!' as int <= c <= 'u' as int)
    decreases |src|
  {
    if |src| > 0 {
      var n := if |src| < 4 then |src| else 4;
      Ascii85.EncodeCons(src, n);
      EncodeAlphabet(src[n..]);
      var g := Ascii85.EncodeGroup(src[..n]);
      var v := Ascii85.GroupValue(src[..n]);
      if !(v == 0 && n == 4) {
        assert g == Ascii85.Base85(v, 5)[..n + 1];
      }
    }
  }

  /** Distinct digests give distinct hash texts. */
  lemma HashTextInjective(d1: Digest, d2: Digest)
    requires HashText(d1) == HashText(d2)
    ensures d1 == d2
  {
    var b1, b2 := Ascii85.Buffer(d1), Ascii85.Buffer(d2);
    assert |b1| == |b2|;
    forall k | 0 <= k < |b1|
      ensures b1[k] == b2[k]
    {
      assert Text(b1)[k] == Text(b2)[k];
    }
    assert b1 == b2;
    Ascii85.BufferInjective(d1, d2);
  }

  /** The all-zero digest: eight 'z's, then 32 zero bytes kept in the string. */
  lemma ZeroDigestText()
    ensures HashText(seq(32, _ => 0)) == seq(8, _ => 'z') + seq(32, _ => 0 as char)
  {
    var d: Digest := seq(32, _ => 0);
    assert d == seq(4 * 8, _ => 0);
    Ascii85.EncodeZeros(8);
    var b := Ascii85.Buffer(d);
    assert b == seq(8, _ => Ascii85.Z) + seq(32, _ => 0);
  }

  /** `Input.Hash` sees only the concatenation of schema and query: moving the
      boundary between them does not change the hash. */
  lemma InputHashOfConcatenation(p: Primitives, i: Input, j: Input)
    requires i.init + i.query == j.init + j.query
    ensures InputHash(p, i) == InputHash(p, j)
  {
    Utf8Append(i.init, i.query);
    Utf8Append(j.init, j.query);
  }

  /** The instance `{"ab", "c"}` and `{"a", "bc"}`. */
  lemma InputHashBoundaryExample(p: Primitives)
    ensures InputHash(p, Input("ab", "c")) == InputHash(p, Input("a", "bc"))
  {
    InputHashOfConcatenation(p, Input("ab", "c"), Input("a", "bc"));
  }

  /** SHA-256 maps these two byte strings to distinct digests (assumed; it
      is collision resistance, not a theorem). */
  predicate NoCollision(p: Primitives, x: seq<byte>, y: seq<byte>)
  {
    x != y ==> p.sha256(x) != p.sha256(y)
  }

  /** Inputs whose schema-and-query texts differ hash differently, given no
      SHA-256 collision between their bytes. */
  lemma InputHashDistinct(p: Primitives, i: Input, j: Input)
    requires NoCollision(p, Utf8(i.init) + Utf8(i.query), Utf8(j.init) + Utf8(j.query))
    requires i.init + i.query != j.init + j.query
    ensures InputHash(p, i) != InputHash(p, j)
  {
    Utf8Append(i.init, i.query);
    Utf8Append(j.init, j.query);
    if InputHash(p, i) == InputHash(p, j) {
      HashTextInjective(InputDigest(p, i), InputDigest(p, j));
      Utf8Injective(i.init + i.query, j.init + j.query);
    }
  }

  /** Results that gob encodes differently, without a SHA-256 collision between
      the encodings, hash differently. */
  lemma OutputHashDistinct(p: Primitives, o1: Output, o2: Output)
    requires p.gob(o1.result).Ok? && p.gob(o2.result).Ok?
    requires p.gob(o1.result) != p.gob(o2.result)
    requires NoCollision(p, p.gob(o1.result).value, p.gob(o2.result).value)
    ensures OutputHash(p, o1).Ok? && OutputHash(p, o2).Ok? && OutputHash(p, o1) != OutputHash(p, o2)
  {
    var d1, d2 := p.sha256(p.gob(o1.result).value), p.sha256(p.gob(o2.result).value);
    if HashText(d1) == HashText(d2) {
      HashTextInjective(d1, d2);
    }
  }

  /** gob tells these row sequences apart (assumed for the inputs at hand). */
  predicate GobDistinguishes(p: Primitives, r1: seq<seq<Cell>>, r2: seq<seq<Cell>>)
  {
    p.gob(r1).Ok? && p.gob(r2).Ok? && (r1 != r2 ==> p.gob(r1) != p.gob(r2))
  }

  /** Adding a row changes the output hash, given that gob distinguishes the two
      row sequences and SHA-256 does not collide on their encodings. */
  lemma AddingRowChangesHash(p: Primitives, o: Output, row: seq<Cell>)
    requires GobDistinguishes(p, o.result, o.result + [row])
    requires NoCollision(p, p.gob(o.result).value, p.gob(o.result + [row]).value)
    ensures OutputHash(p, o) != OutputHash(p, Output(o.result + [row]))
  {
    assert |o.result + [row]| != |o.result|;
    OutputHashDistinct(p, o, Output(o.result + [row]));
  }
}
