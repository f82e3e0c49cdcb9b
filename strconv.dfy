/** Go's `strconv.FormatInt(n, 10)` and `strconv.ParseInt(s, 10, 64)`. */
module Strconv {
  import opened Common

  /** The two failures `strconv.ParseInt` reports (`NumError.Err`). */
  datatype NumError = ErrSyntax | ErrRange

  const MaxUint64: nat := 0xFFFF_FFFF_FFFF_FFFF
  /** `maxUint64/10 + 1`: the first accumulator value whose times ten overflows. */
  const Cutoff: nat := MaxUint64 / 10 + 1
  const Int64Cutoff: nat := 0x8000_0000_0000_0000

  predicate IsDigit(c: char) { '0' <= c <= '9' }

  function DigitChar(d: nat): (c: char)
    requires d < 10
    ensures IsDigit(c) && c as int - '0' as int == d
  {
    (('0' as int) + d) as char
  }

  /** Base-10 digits of a natural number, most significant first, no leading zeros. */
  function Digits(u: nat): (s: string)
    ensures |s| > 0 && forall i :: 0 <= i < |s| ==> IsDigit(s[i])
    ensures u > 0 ==> s[0] != '0'
  {
    if u < 10 then [DigitChar(u)] else Digits(u / 10) + [DigitChar(u % 10)]
  }

  /** `strconv.FormatInt(n, 10)`: a minus sign only for negatives, then the digits. */
  function FormatInt(n: int64): (s: string)
    ensures n < 0 <==> (|s| > 0 && s[0] == '-')
    ensures n >= 0 ==> s == Digits(n)
    ensures n < 0 ==> s == "-" + Digits(-(n as int))
  {
    if n < 0 then "-" + Digits(-(n as int)) else Digits(n)
  }

  /** One step of the `ParseUint` loop: fold character `c` into accumulator `n`. */
  function Step(n: nat, c: char): Result<nat, NumError>
  {
    if !IsDigit(c) then Err(ErrSyntax)
    else if n >= Cutoff then Err(ErrRange)
    else
      var n1 := n * 10 + (c as int - '0' as int);
      if n1 > MaxUint64 then Err(ErrRange) else Ok(n1)
  }

  /** The `ParseUint` loop over the characters `s`, starting from accumulator `n`;
      a bad character or an overflow stops the scan at once, as in Go. */
  function Scan(s: string, n: nat): Result<nat, NumError>
    decreases |s|
  {
    if |s| == 0 then Ok(n)
    else match Step(n, s[0])
      case Err(e) => Err(e)
      case Ok(n1) => Scan(s[1..], n1)
  }

  /** `strconv.ParseUint(s, 10, 64)`. */
  function ParseUint(s: string): Result<nat, NumError>
  {
    if |s| == 0 then Err(ErrSyntax) else Scan(s, 0)
  }

  /** `strconv.ParseInt(s, 10, 64)`: optional sign, decimal digits, 64-bit range. */
  function ParseInt(s: string): (r: Result<int64, NumError>)
    ensures |s| == 0 ==> r == Err(ErrSyntax)
  {
    if |s| == 0 then Err(ErrSyntax)
    else
      var neg := s[0] == '-';
      var body := if s[0] == '+' || s[0] == '-' then s[1..] else s;
      match ParseUint(body)
      case Err(e) => Err(e)
      case Ok(u) =>
        if !neg && u >= Int64Cutoff then Err(ErrRange)
        else if neg && u > Int64Cutoff then Err(ErrRange)
        else
          var v: int := if neg then -(u as int) else u;
          Ok(v)
  }

  /** Scanning one more character is one more `Step` after the scan so far. */
  lemma {:induction false} ScanSnoc(s: string, c: char, n: nat)
    ensures Scan(s + [c], n) == match Scan(s, n) case Err(e) => Err(e) case Ok(m) => Step(m, c)
    decreases |s|
  {
    if |s| == 0 {
      assert s + [c] == [c];
      assert [c][1..] == [];
    } else {
      assert (s + [c])[0] == s[0];
      assert (s + [c])[1..] == s[1..] + [c];
      match Step(n, s[0])
      case Err(e) =>
      case Ok(n1) => ScanSnoc(s[1..], c, n1);
    }
  }

  /** Parsing the digits of any 64-bit unsigned value gives that value back. */
  lemma {:induction false} ScanDigits(u: nat)
    requires u <= MaxUint64
    ensures Scan(Digits(u), 0) == Ok(u)
  {
    if u < 10 {
      assert Digits(u) == [DigitChar(u)];
      assert Digits(u)[1..] == [];
    } else {
      ScanDigits(u / 10);
      ScanSnoc(Digits(u / 10), DigitChar(u % 10), 0);
    }
  }

  /** Every int64 survives `FormatInt` followed by `ParseInt`. */
  lemma ParseFormat(n: int64)
    ensures ParseInt(FormatInt(n)) == Ok(n)
  {
    if n < 0 {
      ScanDigits(-(n as int));
      assert FormatInt(n)[1..] == Digits(-(n as int));
    } else {
      ScanDigits(n);
    }
  }

  /** An optional sign followed by at least one decimal digit. */
  predicate Decimal(s: string)
  {
    var body := if |s| > 0 && (s[0] == '+' || s[0] == '-') then s[1..] else s;
    |body| > 0 && forall i :: 0 <= i < |body| ==> IsDigit(body[i])
  }

  /** A scan that succeeds has read digits only. */
  lemma {:induction false} ScanOkDigits(s: string, n: nat)
    requires Scan(s, n).Ok?
    ensures forall i :: 0 <= i < |s| ==> IsDigit(s[i])
    decreases |s|
  {
    if |s| > 0 {
      var n1 := Step(n, s[0]).value;
      ScanOkDigits(s[1..], n1);
      assert forall i :: 1 <= i < |s| ==> s[i] == s[1..][i - 1];
    }
  }

  /** Text `ParseInt` accepts is decimal: no spaces, no other base, no
      underscores. */
  lemma ParseIntDecimal(s: string)
    requires ParseInt(s).Ok?
    ensures Decimal(s)
  {
    var body := if s[0] == '+' || s[0] == '-' then s[1..] else s;
    ScanOkDigits(body, 0);
  }

  /** The sign and leading zeros are accepted, as Go does. */
  lemma SignAndLeadingZeros()
    ensures ParseInt("+7") == Ok(7)
    ensures ParseInt("007") == Ok(7)
    ensures ParseInt("-0") == Ok(0)
  {
    assert "+7"[1..] == "7";
    assert "7"[1..] == "";
    assert "007"[1..] == "07";
    assert "07"[1..] == "7";
    assert "-0"[1..] == "0";
    assert "0"[1..] == "";
  }

  /** A lone sign and a non-digit are syntax errors. */
  lemma SyntaxErrors()
    ensures ParseInt("-") == Err(ErrSyntax)
    ensures ParseInt("+") == Err(ErrSyntax)
    ensures ParseInt("1x") == Err(ErrSyntax)
  {
    assert "-"[1..] == "";
    assert "+"[1..] == "";
    assert "1x"[1..] == "x";
  }

  /** Decimal text of a value outside the int64 range is a range error. */
  lemma {:induction false} OutOfRange(u: nat)
    requires Int64Cutoff <= u <= MaxUint64
    ensures ParseInt(Digits(u)) == Err(ErrRange)
    ensures u > Int64Cutoff ==> ParseInt("-" + Digits(u)) == Err(ErrRange)
    ensures ParseInt("-" + Digits(Int64Cutoff)) == Ok(-0x8000_0000_0000_0000)
  {
    ScanDigits(u);
    ScanDigits(Int64Cutoff);
    assert ("-" + Digits(u))[1..] == Digits(u);
    assert ("-" + Digits(Int64Cutoff))[1..] == Digits(Int64Cutoff);
  }
}
