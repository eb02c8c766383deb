/** Shared vocabulary: optional values, refusals, and decimal text. */
module Basics {

  /** The largest artifact the evidence store takes, the runner journal included. */
  const MAX_ARTIFACT_BYTES: nat := 32 * 1024 * 1024

  datatype Option<+T> = None | Some(value: T)

  /** A result, or the source's exception with a short reason. */
  datatype Result<+T> = Ok(value: T) | Refused(reason: string)

  function DigitChar(d: nat): char
    requires d < 10
  {
    '0' + d as char
  }

  predicate IsDigit(c: char) {
    '0' <= c <= '9'
  }

  predicate AllDigits(s: string) {
    forall c <- s :: IsDigit(c)
  }

  /** The decimal text of a natural number, as a template literal prints it. */
  function Decimal(n: nat): string {
    if n < 10 then [DigitChar(n)] else Decimal(n / 10) + [DigitChar(n % 10)]
  }

  /** The number a digit string denotes; leading zeros are allowed. */
  function DecimalValue(s: string): nat
    requires AllDigits(s)
  {
    if s == "" then 0 else
      var last := s[|s| - 1];
      assert last in s;
      10 * DecimalValue(s[..|s| - 1]) + (last as int - '0' as int)
  }

  lemma {:induction false} DecimalRoundTrip(n: nat)
    ensures Decimal(n) != "" && AllDigits(Decimal(n))
    ensures DecimalValue(Decimal(n)) == n
  {
    if n < 10 {
      assert Decimal(n)[..0] == "";
    } else {
      DecimalRoundTrip(n / 10);
      assert forall c <- Decimal(n) :: c in Decimal(n / 10) || c == DigitChar(n % 10);
      assert Decimal(n)[..|Decimal(n)| - 1] == Decimal(n / 10);
    }
  }

  lemma {:induction false} DecimalInjective(m: nat, n: nat)
    ensures Decimal(m) == Decimal(n) ==> m == n
  {
    DecimalRoundTrip(m);
    DecimalRoundTrip(n);
  }

  /** `s` up to and after its last occurrence of `c`, when `c` does not occur in `tail`. */
  lemma {:induction false} LastSplitUnique(a: string, x: string, b: string, y: string, c: char)
    requires c !in x && c !in y
    requires a + [c] + x == b + [c] + y
    ensures a == b && x == y
  {
    var s := a + [c] + x;
    assert s[|a|] == c && s[|b|] == c;
    assert forall k | |a| < k < |s| :: s[k] == x[k - |a| - 1] && s[k] != c;
    assert forall k | |b| < k < |s| :: s[k] == y[k - |b| - 1] && s[k] != c;
    assert a == s[..|a|] && b == s[..|b|];
    assert x == s[|a| + 1..] && y == s[|b| + 1..];
  }
}
