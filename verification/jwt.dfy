/**
 * Token configuration and claim construction: the signing secret and the
 * expiry come from two environment values, and the claims carry the
 * principal unchanged. Signing itself is an abstract function `sign`.
 */
module Jwt {
  import opened Wrappers
  import opened Models

  datatype Claims = Claims(
    userId: string,
    roleId: string,
    permissions: seq<string>,
    issuedAt: Time,
    expiresAt: Time,
    issuer: string)

  /** The two ways decimal integer parsing fails. */
  datatype AtoiError = InvalidSyntax(input: string) | OutOfRange(input: string)

  datatype JwtError = SecretNotSet | BadExpiry(cause: AtoiError)

  const Int64Min: int := -0x8000_0000_0000_0000
  const Int64Max: int := 0x7FFF_FFFF_FFFF_FFFF
  const Issuer: string := "ekrp"
  const DefaultExpiry: int := 24 * Hour

  /** The signing secret: the JWT_SECRET value, which must be non-empty. */
  function JwtSecret(env: string): (r: Result<string, JwtError>)
    ensures r.Failure? <==> env == ""
    ensures r.Failure? ==> r.error == SecretNotSet
    ensures r.Success? ==> r.value == env
  {
    if env == "" then Failure(SecretNotSet) else Success(env)
  }

  predicate IsDigit(c: char) {
    '0' <= c <= '9'
  }

  predicate AllDigits(s: string) {
    forall i :: 0 <= i < |s| ==> IsDigit(s[i])
  }

  /** The value of a string of decimal digits. */
  function DigitsValue(s: string): nat
    requires AllDigits(s)
  {
    if s == [] then 0 else DigitsValue(s[..|s| - 1]) * 10 + (s[|s| - 1] as int - '0' as int)
  }

  /** The string after an optional leading '+' or '-'. */
  function Unsigned(s: string): string {
    if |s| > 0 && (s[0] == '+' || s[0] == '-') then s[1..] else s
  }

  /** 2^64: the first magnitude that no longer fits in an unsigned 64-bit accumulator. */
  const Uint64Bound: int := 0x1_0000_0000_0000_0000

  /** The longest prefix of `s` made of decimal digits. */
  function DigitPrefix(s: string): (p: string)
    ensures AllDigits(p) && |p| <= |s| && p == s[..|p|]
    ensures |p| < |s| ==> !IsDigit(s[|p|])
    ensures p == s <==> AllDigits(s)
  {
    if s == [] || !IsDigit(s[0]) then []
    else [s[0]] + DigitPrefix(s[1..])
  }

  /**
   * Decimal integer parsing with 64-bit range check: an optional sign, then
   * one or more digits. Digits are read left to right into an unsigned 64-bit
   * accumulator, so a digit run that overflows it is a range error even when
   * a non-digit follows; otherwise a non-digit is a syntax error, and a
   * well-formed value outside the signed 64-bit range is a range error.
   */
  function Atoi(s: string): (r: Result<int, AtoiError>)
    ensures r.Success? ==> Int64Min <= r.value <= Int64Max && AllDigits(Unsigned(s))
    ensures r == Failure(InvalidSyntax(s)) <==>
      Unsigned(s) == [] || (!AllDigits(Unsigned(s)) && DigitsValue(DigitPrefix(Unsigned(s))) < Uint64Bound)
    ensures Unsigned(s) != [] && DigitsValue(DigitPrefix(Unsigned(s))) >= Uint64Bound ==> r == Failure(OutOfRange(s))
    ensures Unsigned(s) != [] && AllDigits(Unsigned(s)) ==>
      var m: int := if s[0] == '-' then -(DigitsValue(Unsigned(s)) as int) else DigitsValue(Unsigned(s));
      r == (if Int64Min <= m <= Int64Max then Success(m) else Failure(OutOfRange(s)))
  {
    var digits := Unsigned(s);
    if digits == [] then Failure(InvalidSyntax(s))
    else if DigitsValue(DigitPrefix(digits)) >= Uint64Bound then Failure(OutOfRange(s))
    else if !AllDigits(digits) then Failure(InvalidSyntax(s))
    else
      var magnitude: int := DigitsValue(digits);
      var n := if s[0] == '-' then -magnitude else magnitude;
      if n < Int64Min || n > Int64Max then Failure(OutOfRange(s)) else Success(n)
  }

  function Pow10(n: nat): (p: nat)
    ensures p >= 1
  {
    if n == 0 then 1 else 10 * Pow10(n - 1)
  }

  /** A run of `n` nines has value 10^n - 1. */
  lemma {:induction false} NinesValue(n: nat)
    ensures AllDigits(seq(n, _ => '9')) && DigitsValue(seq(n, _ => '9')) == Pow10(n) - 1
  {
    if n > 0 {
      var s: string := seq(n, _ => '9');
      assert s[..n - 1] == seq(n - 1, _ => '9');
      NinesValue(n - 1);
    }
  }

  /**
   * Overflow is found while reading digits, before a later non-digit is
   * reached: a digit run worth 2^64 or more, then a non-digit, is a range
   * error, not a syntax error.
   */
  lemma OverflowBeforeJunk(digits: string, c: char)
    requires digits != [] && AllDigits(digits) && DigitsValue(digits) >= Uint64Bound
    requires !IsDigit(c)
    ensures Atoi(digits + [c]) == Failure(OutOfRange(digits + [c]))
  {
    var s := digits + [c];
    assert s[0] == digits[0];
    assert Unsigned(s) == s;
    var p := DigitPrefix(s);
    assert |p| == |digits| by {
      assert forall i :: 0 <= i < |digits| ==> s[i] == digits[i];
      assert s[|digits|] == c;
    }
    assert p == digits;
  }

  /** For example, twenty nines followed by 'x'. */
  lemma AtoiOverflowBeforeJunk()
    ensures Atoi(seq(20, _ => '9') + "x") == Failure(OutOfRange(seq(20, _ => '9') + "x"))
  {
    NinesValue(20);
    assert Pow10(20) == 100_000_000_000_000_000_000 by {
      assert Pow10(5) == 100_000;
      assert Pow10(10) == 10_000_000_000;
      assert Pow10(15) == 1_000_000_000_000_000;
    }
    OverflowBeforeJunk(seq(20, _ => '9'), 'x');
  }

  /** The decimal digits of `n`, without leading zeros. */
  function Decimal(n: nat): (s: string)
    ensures s != [] && AllDigits(s)
  {
    if n < 10 then [('0' as int + n) as char] else Decimal(n / 10) + [('0' as int + n % 10) as char]
  }

  /** The decimal form of `n`, with a '-' when negative. */
  function DecimalString(n: int): string {
    if n < 0 then "-" + Decimal(-n) else Decimal(n)
  }

  lemma {:induction false} DecimalValue(n: nat)
    ensures DigitsValue(Decimal(n)) == n
  {
    if n >= 10 {
      var s := Decimal(n);
      assert s[..|s| - 1] == Decimal(n / 10);
      DecimalValue(n / 10);
    }
  }

  /** Parsing inverts printing on the 64-bit range. */
  lemma AtoiDecimal(n: int)
    requires Int64Min <= n <= Int64Max
    ensures Atoi(DecimalString(n)) == Success(n)
  {
    var s := DecimalString(n);
    var magnitude: nat := if n < 0 then -n else n;
    assert Unsigned(s) == Decimal(magnitude);
    DecimalValue(magnitude);
    var d := Unsigned(s);
    assert DigitPrefix(d) == d;
    assert DigitsValue(d) == magnitude < Uint64Bound;
    assert s[0] == '-' <==> n < 0;
  }

  /** Two's-complement 64-bit wrap-around of an integer. */
  function WrapInt64(x: int): (r: int)
    ensures Int64Min <= r <= Int64Max
    ensures (r - x) % 0x1_0000_0000_0000_0000 == 0
    ensures Int64Min <= x <= Int64Max ==> r == x
  {
    (x - Int64Min) % 0x1_0000_0000_0000_0000 + Int64Min
  }

  /** Token lifetime in nanoseconds: 24 hours when unset, else the value in minutes, wrapped to 64 bits. */
  function JwtExpiry(env: string): (r: Result<int, JwtError>)
    ensures env == "" ==> r == Success(DefaultExpiry)
    ensures env != "" ==> (r.Success? <==> Atoi(env).Success?)
    ensures env != "" && r.Failure? ==> r.error == BadExpiry(Atoi(env).error)
    ensures env != "" && r.Success? ==> r.value == WrapInt64(Atoi(env).value * Minute)
  {
    if env == "" then Success(DefaultExpiry)
    else match Atoi(env)
      case Failure(e) => Failure(BadExpiry(e))
      case Success(mins) => Success(WrapInt64(mins * Minute))
  }

  /** The largest minute count whose duration in nanoseconds fits in 64 bits. */
  const MaxMinutes: int := 153_722_867

  /** Any minute count printed in decimal whose duration fits gives exactly that many minutes. */
  lemma ExpiryOfMinutes(n: int)
    requires -MaxMinutes <= n <= MaxMinutes
    ensures JwtExpiry(DecimalString(n)) == Success(n * Minute)
  {
    AtoiDecimal(n);
    assert DecimalString(n) != "";
    assert Minute == 60_000_000_000;
    assert Int64Min <= n * 60_000_000_000 <= Int64Max;
  }

  /** One minute more than fits wraps round to a negative lifetime: no range check is applied. */
  lemma ExpiryWrapsBeyondMaxMinutes()
    ensures JwtExpiry(DecimalString(MaxMinutes + 1)).Success?
    ensures JwtExpiry(DecimalString(MaxMinutes + 1)).value < 0
  {
    AtoiDecimal(MaxMinutes + 1);
    assert DecimalString(MaxMinutes + 1) != "";
    assert Minute == 60_000_000_000;
    assert (MaxMinutes + 1) * Minute == 9_223_372_080_000_000_000;
  }

  /** A token date: the time truncated to whole seconds. */
  function NumericDate(t: Time): (d: Time)
    ensures d <= t < d + Second && d % Second == 0
  {
    t - t % Second
  }

  /** The claims of a token issued at `now` with lifetime `expiry`. */
  function TokenClaims(userId: string, roleId: string, permissions: seq<string>, now: Time, expiry: int): (c: Claims)
    ensures c.userId == userId && c.roleId == roleId && c.permissions == permissions
    ensures c.issuer == Issuer
    ensures c.issuedAt == NumericDate(now) && c.expiresAt == NumericDate(now + expiry)
    ensures c.issuedAt <= now < c.issuedAt + Second && c.issuedAt % Second == 0
    ensures c.expiresAt <= now + expiry < c.expiresAt + Second && c.expiresAt % Second == 0
  {
    Claims(userId, roleId, permissions, NumericDate(now), NumericDate(now + expiry), Issuer)
  }

  /**
   * A signed token for the principal; the secret is checked before the
   * expiry, and either error yields no token.
   */
  function GenerateTokenWithPermissions(userId: string, roleId: string, permissions: seq<string>,
                                        secretEnv: string, expiryEnv: string, now: Time,
                                        sign: (Claims, string) -> string): (r: Result<string, JwtError>)
    ensures secretEnv == "" ==> r == Failure(SecretNotSet)
    ensures secretEnv != "" && JwtExpiry(expiryEnv).Failure? ==> r == Failure(JwtExpiry(expiryEnv).error)
    ensures r.Success? <==> secretEnv != "" && JwtExpiry(expiryEnv).Success?
    ensures r.Success? ==> r.value == sign(TokenClaims(userId, roleId, permissions, now, JwtExpiry(expiryEnv).value), secretEnv)
  {
    match JwtSecret(secretEnv)
    case Failure(e) => Failure(e)
    case Success(secret) =>
      match JwtExpiry(expiryEnv)
      case Failure(e) => Failure(e)
      case Success(exp) => Success(sign(TokenClaims(userId, roleId, permissions, now, exp), secret))
  }
}
