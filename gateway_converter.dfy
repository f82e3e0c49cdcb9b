/** The conversion helpers of the gateway service package
    (`internal/services/gateway/converter.go`). Pointers are modelled as
    `Option` values: what they point to, not where. */
module GatewayConverter {
  import opened Common
  import opened Strconv

  /** `gatewayservice.Int64ToString`: the base-10 text of `n`, whose digits
      read back to `|n|`, behind a minus sign when `n` is negative. */
  function Int64ToString(n: int64): (s: string)
    ensures n >= 0 ==> Scan(s, 0) == Ok(n as nat)
    ensures n < 0 ==> |s| > 1 && s[0] == '-' && Scan(s[1..], 0) == Ok(-(n as int))
  {
    if n >= 0 then ScanDigits(n); FormatInt(n)
    else
      ScanDigits(-(n as int));
      assert FormatInt(n)[1..] == Digits(-(n as int));
      FormatInt(n)
  }

  /** `gatewayservice.PInt64ToPString`: nil stays nil, a value is converted. */
  function PInt64ToPString(p: Option<int64>): (r: Option<string>)
    ensures p.None? ==> r.None?
    ensures p.Some? ==> r == Some(Int64ToString(p.value))
  {
    if p.None? then None else Some(Int64ToString(p.value))
  }

  /** `gatewayservice.TimeToPtrTime`: a pointer to a copy of its argument;
      never nil. */
  function TimeToPtrTime(t: Time): (r: Option<Time>)
    ensures r.Some? && r.value == t
  {
    Some(t)
  }
}
