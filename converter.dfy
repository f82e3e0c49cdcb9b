/** The identifier codecs of the REST gateway's `converter` package
    (`internal/services/gateway/converter/converter.go`): decimal text for
    int64 ids, and the opaque challenge id, which is the base64url text of
    the JSON object `{"q":<question id>,"c":<challenge id>}`. */
module Converter {
  import opened Common
  import opened GoErrors
  import opened GoStrings
  import opened Strconv
  import opened GoJson
  import Base64

  /** `converter.StringToID`: `strconv.ParseInt(in, 10, 64)`. */
  function StringToID(s: string): (r: Result<int64, NumError>)
    ensures |s| == 0 ==> r == Err(ErrSyntax)
    ensures r.Ok? ==> Decimal(s)
  {
    var r := ParseInt(s);
    if r.Ok? then ParseIntDecimal(s); r else r
  }

  /** `converter.Int64ToString`: base-10 text, a minus sign only for
      negatives, read back by `StringToID`. */
  function Int64ToString(n: int64): (s: string)
    ensures StringToID(s) == Ok(n)
    ensures Decimal(s) && s[0] != '+'
    ensures s[0] == '-' <==> n < 0
  {
    ParseFormat(n);
    ParseIntDecimal(FormatInt(n));
    FormatInt(n)
  }

  /** `converter.PInt64ToPString`: nil stays nil, a value is converted. */
  function PInt64ToPString(p: Option<int64>): (r: Option<string>)
    ensures r.None? <==> p.None?
    ensures p.Some? ==> r.value == Int64ToString(p.value) && StringToID(r.value) == Ok(p.value)
  {
    match p
    case None => None
    case Some(n) => Some(Int64ToString(n))
  }

  /** `converter.TimeToTime`: the identity. */
  function TimeToTime(t: Time): (r: Time)
    ensures r == t
  {
    t
  }

  /** `converter.TransferableChallengeID`. */
  datatype TransferableChallengeID = TransferableChallengeID(questionId: int64, challengeId: string)

  /** What `json.Marshal` writes for it, as text: the fields in declaration
      order under their tags `q` and `c`, no spaces. */
  function MarshalText(tc: TransferableChallengeID): string
  {
    "{\"q\":" + FormatInt(tc.questionId) + ",\"c\":" + Quote(tc.challengeId) + "}"
  }

  /** `json.Marshal(tc)`: the UTF-8 bytes of that text. It cannot fail for
      this struct, so the `"<failed>"` branch of `EncodeChallengeID` is never
      taken. */
  function Marshal(tc: TransferableChallengeID): seq<byte>
  {
    Utf8(MarshalText(tc))
  }

  /** `converter.EncodeChallengeID`. */
  function EncodeChallengeID(tc: TransferableChallengeID): (s: string)
    ensures Base64.Decode(s) == Ok(Marshal(tc))
  {
    Base64.DecodeEncode(Marshal(tc));
    Base64.Encode(Marshal(tc))
  }

  /** `converter.DecodeChallengeID`, with `json.Unmarshal` into the struct as
      the parameter `unmarshal`: a base64 error is returned as it is, and so
      is a JSON error. */
  function DecodeChallengeID(unmarshal: seq<byte> -> Result<TransferableChallengeID, GoError>, s: string)
    : (r: Result<TransferableChallengeID, GoError>)
    ensures Base64.Decode(s).Err? ==> r == Err(Base64.Decode(s).error)
    ensures r.Ok? ==> Base64.Decode(s).Ok? && unmarshal(Base64.Decode(s).value) == r
  {
    match Base64.Decode(s)
    case Err(e) => Err(e)
    case Ok(b) => unmarshal(b)
  }

  // ---------------------------------------------------------------------------
  // Reading the marshalled text back
  // ---------------------------------------------------------------------------

  const Head: string := "{\"q\":"
  const Mid: string := ",\"c\":\""
  const Tail: string := "\"}"

  /** The position of the first `c` in `s`, or `|s|`. */
  function IndexOf(s: string, c: char): (k: nat)
    ensures k <= |s| && c !in s[..k]
    ensures k < |s| ==> s[k] == c
    decreases |s|
  {
    if |s| == 0 || s[0] == c then 0 else 1 + IndexOf(s[1..], c)
  }

  /** The first `c` of `a + b` is the first of `b` when `a` has none. */
  lemma {:induction false} IndexOfAppend(a: string, b: string, c: char)
    requires c !in a && |b| > 0 && b[0] == c
    ensures IndexOf(a + b, c) == |a|
    decreases |a|
  {
    if |a| > 0 {
      assert (a + b)[1..] == a[1..] + b;
      IndexOfAppend(a[1..], b, c);
    }
  }

  /** A reader for exactly the text `MarshalText` writes: the number up to
      the first comma, then the escaped challenge id up to the closing
      quote and brace. */
  function ReadMarshalText(t: string): Option<TransferableChallengeID>
  {
    if !HasPrefix(t, Head) then None
    else
      var r := t[|Head|..];
      var k := IndexOf(r, ',');
      var after := r[k..];
      if |after| < |Mid| + |Tail| || !HasPrefix(after, Mid) || after[|after| - |Tail|..] != Tail then None
      else
        match (ParseInt(r[..k]), Unescape(after[|Mid|..|after| - |Tail|]))
        case (Ok(q), Some(c)) => Some(TransferableChallengeID(q, c))
        case _ => None
  }

  /** The marshalled text, regrouped around its three fixed pieces. */
  lemma MarshalTextPieces(tc: TransferableChallengeID)
    ensures MarshalText(tc) == Head + (FormatInt(tc.questionId) + (Mid + (Escape(tc.challengeId) + Tail)))
  {
    Regrouped(FormatInt(tc.questionId), Escape(tc.challengeId));
  }

  lemma Regrouped(num: string, e: string)
    ensures "{\"q\":" + num + ",\"c\":" + ("\"" + e + "\"") + "}" == Head + (num + (Mid + (e + Tail)))
  {
    var comma, quote, close := ",\"c\":", "\"", "}";
    assert Mid == comma + quote && Tail == quote + close;
    Assoc(Head + num, comma, quote + e + quote);
    Assoc(quote + e, quote, close);
    Assoc(quote, e, Tail);
    Assoc(comma, quote, e + Tail);
    Assoc(Head, num, Mid + (e + Tail));
    assert Head + num + comma + (quote + e + quote) + close == Head + num + (comma + (quote + e + quote)) + close;
    assert comma + (quote + e + quote) + close == comma + ((quote + e + quote) + close);
  }

  lemma CommaFree(n: int64)
    ensures ',' !in FormatInt(n)
  {
    var s := FormatInt(n);
    if n < 0 {
      assert forall i :: 1 <= i < |s| ==> s[i] == Digits(-(n as int))[i - 1];
    }
  }

  /** The reader takes back every marshalled challenge id. */
  lemma ReadMarshal(tc: TransferableChallengeID)
    ensures ReadMarshalText(MarshalText(tc)) == Some(tc)
  {
    MarshalTextPieces(tc);
    CommaFree(tc.questionId);
    ReadPieces(FormatInt(tc.questionId), Escape(tc.challengeId));
    ParseFormat(tc.questionId);
    UnescapeEscape(tc.challengeId);
  }

  /** The reader cuts a text of the marshalled shape at the right places:
      the number is everything before the first comma, the escaped id
      everything between the fixed middle and the fixed tail. */
  lemma ReadPieces(num: string, e: string)
    requires ',' !in num
    ensures ReadMarshalText(Head + (num + (Mid + (e + Tail)))) ==
      match (ParseInt(num), Unescape(e))
      case (Ok(q), Some(c)) => Some(TransferableChallengeID(q, c))
      case _ => None
  {
    var after := Mid + (e + Tail);
    var r := num + after;
    var t := Head + r;
    assert t[|Head|..] == r;
    IndexOfAppend(num, after, ',');
    assert r[..|num|] == num;
    assert r[|num|..] == after;
    assert after[|Mid|..|after| - |Tail|] == e;
    assert after[|after| - |Tail|..] == Tail;
    assert HasPrefix(after, Mid);
  }

  /** Two challenge ids that marshal to the same bytes are the same, so an
      unmarshal that undoes `Marshal` exists. */
  lemma MarshalInjective(a: TransferableChallengeID, b: TransferableChallengeID)
    requires Marshal(a) == Marshal(b)
    ensures a == b
  {
    Utf8Injective(MarshalText(a), MarshalText(b));
    ReadMarshal(a);
    ReadMarshal(b);
  }

  // ---------------------------------------------------------------------------
  // Properties of the codec
  // ---------------------------------------------------------------------------

  /** Decoding an encoded challenge id gives it back, given an unmarshal that
      undoes `Marshal` on it. */
  lemma ChallengeRoundTrip(unmarshal: seq<byte> -> Result<TransferableChallengeID, GoError>, tc: TransferableChallengeID)
    requires unmarshal(Marshal(tc)) == Ok(tc)
    ensures DecodeChallengeID(unmarshal, EncodeChallengeID(tc)) == Ok(tc)
  {
  }

  /** Text that is not valid base64 never reaches the JSON decoder. */
  lemma BadBase64Rejected(unmarshal: seq<byte> -> Result<TransferableChallengeID, GoError>, s: string)
    requires '\n' !in s && '\r' !in s && |s| % 4 != 0
    ensures DecodeChallengeID(unmarshal, s) == Err(Plain(Base64.CorruptText))
  {
    Base64.UnpaddedRejected(s);
  }

  /** A JSON error is returned unchanged. */
  lemma JsonErrorPassesThrough(unmarshal: seq<byte> -> Result<TransferableChallengeID, GoError>, s: string, e: GoError)
    requires Base64.Decode(s).Ok? && unmarshal(Base64.Decode(s).value) == Err(e)
    ensures DecodeChallengeID(unmarshal, s) == Err(e)
  {
  }
}
