/** Decimal numbers as text, and strings as bytes. */
module Decimals {
  import opened Domain

  const NEWLINE: byte := 10
  const PLUS: byte := 43
  const MINUS: byte := 45
  const ZERO: byte := 48

  predicate Int64(n: int) {
    -0x8000_0000_0000_0000 <= n < 0x8000_0000_0000_0000
  }

  predicate Digit(c: byte) {
    ZERO <= c < ZERO + 10
  }

  function DigitsOf(n: nat): (s: seq<byte>)
    ensures s != [] && forall c :: c in s ==> Digit(c)
  {
    if n < 10 then [ZERO + n] else DigitsOf(n / 10) + [ZERO + n % 10]
  }

  function FormatInt(n: int): seq<byte> {
    if n < 0 then [MINUS] + DigitsOf(-n) else DigitsOf(n)
  }

  /** The value of a string of digits, most significant first. */
  function ValueOf(s: seq<byte>): nat
    requires forall c :: c in s ==> Digit(c)
  {
    if s == [] then 0
    else
      assert s[|s| - 1] in s && Digit(s[|s| - 1]);
      ValueOf(s[..|s| - 1]) * 10 + s[|s| - 1] - ZERO
  }

  /** One optional sign, then at least one digit and nothing else, in the 64-bit range. */
  function ParseInt(s: seq<byte>): Result<int> {
    var neg := s != [] && s[0] == MINUS;
    var digits := if s != [] && (s[0] == MINUS || s[0] == PLUS) then s[1..] else s;
    if digits == [] || exists c :: c in digits && !Digit(c) then Err(InvalidArgument)
    else
      var n := (if neg then -1 else 1) * ValueOf(digits);
      if Int64(n) then Ok(n) else Err(InvalidArgument)
  }

  lemma {:induction false} DigitsHaveValue(n: nat)
    ensures ValueOf(DigitsOf(n)) == n
  {
    if n >= 10 {
      DigitsHaveValue(n / 10);
      var s := DigitsOf(n);
      assert s[..|s| - 1] == DigitsOf(n / 10);
    } else {
      assert DigitsOf(n)[..0] == [];
    }
  }

  /** A formatted number parses back to itself exactly when it fits 64 bits. */
  lemma NumbersRoundTrip(n: int)
    ensures ParseInt(FormatInt(n)) == if Int64(n) then Ok(n) else Err(InvalidArgument)
    ensures NEWLINE !in FormatInt(n)
  {
    var digits := DigitsOf(if n < 0 then -n else n);
    DigitsHaveValue(if n < 0 then -n else n);
    assert digits[0] in digits;
    if n < 0 {
      assert FormatInt(n)[1..] == digits;
    }
  }

  /** A formatted number has no leading zero and no sign but a minus. */
  lemma {:induction false} FormattedPlainly(n: nat)
    ensures n < 10 ==> DigitsOf(n) == [ZERO + n]
    ensures n > 0 ==> DigitsOf(n)[0] != ZERO
    ensures FormatInt(n) == DigitsOf(n)
    ensures var negative: int := 0 - n; n > 0 ==> FormatInt(negative) == [MINUS] + DigitsOf(n)
  {
    if n >= 10 { FormattedPlainly(n / 10); }
  }

  /** Only digits are a number, after at most one sign, and at least one of them. */
  lemma OnlyDigitsParse(s: seq<byte>)
    ensures var digits := if s != [] && (s[0] == '-' as int || s[0] == '+' as int) then s[1..] else s;
            ParseInt(s).Ok? ==> digits != [] && forall c :: c in digits ==> '0' as int <= c <= '9' as int
    ensures ParseInt(s).Err? ==> ParseInt(s) == Err(InvalidArgument)
  {
    hide ValueOf;
    var digits := if s != [] && (s[0] == MINUS || s[0] == PLUS) then s[1..] else s;
    if ParseInt(s).Ok? {
      assert forall c :: c in digits ==> Digit(c);
    }
  }

  /** A plus sign is read over, and a minus sign turns the number round. */
  lemma SignsAreRead(n: nat)
    ensures ParseInt([PLUS] + DigitsOf(n)) == if Int64(n) then Ok(n) else Err(InvalidArgument)
    ensures var negative: int := 0 - n;
            ParseInt([MINUS] + DigitsOf(n)) == if Int64(negative) then Ok(negative) else Err(InvalidArgument)
  {
    DigitsHaveValue(n);
    assert ([PLUS] + DigitsOf(n))[1..] == DigitsOf(n) && ([MINUS] + DigitsOf(n))[1..] == DigitsOf(n);
  }

  /** Strings of the store are byte strings. */
  ghost predicate IsBytes(s: string) {
    forall i :: 0 <= i < |s| ==> s[i] as int < 256
  }

  function BytesOf(s: string): (b: seq<byte>)
    requires IsBytes(s)
    ensures |b| == |s| && forall i :: 0 <= i < |s| ==> b[i] == s[i] as int
  {
    seq(|s|, i requires 0 <= i < |s| => s[i] as int)
  }

  function StringOf(b: seq<byte>): (s: string)
    ensures |s| == |b| && forall i :: 0 <= i < |b| ==> s[i] as int == b[i]
  {
    seq(|b|, i requires 0 <= i < |b| => b[i] as char)
  }
}
