/** Decimal digit strings, as big.Int.String and big.Int.SetString(s, 10) use them. */
module DecimalStrings {
  import opened Bytes

  const ZERO: byte := 48
  const NINE: byte := 57
  const MINUS: byte := 45
  const PLUS: byte := 43

  function Digits(n: nat): (r: seq<byte>)
    ensures |r| >= 1
  {
    if n < 10 then [ZERO + n] else Digits(n / 10) + [ZERO + n % 10]
  }

  /** big.Int.String */
  function IntString(n: int): (r: seq<byte>)
    ensures |r| >= 1
  {
    if n < 0 then [MINUS] + Digits(-n) else Digits(n)
  }

  predicate AllDigits(s: seq<byte>) {
    forall i :: 0 <= i < |s| ==> ZERO <= s[i] <= NINE
  }

  /** The number a digit string denotes; leading zeros do not matter. */
  function Value(s: seq<byte>): nat
    requires AllDigits(s)
  {
    if s == [] then 0 else 10 * Value(s[..|s| - 1]) + (s[|s| - 1] - ZERO)
  }

  /** big.Int.SetString(s, 10): an optional sign and at least one digit. */
  function SetString(s: seq<byte>): Option<int> {
    if s == [] then None
    else
      var signed := s[0] == MINUS || s[0] == PLUS;
      var body := if signed then s[1..] else s;
      if body == [] || !AllDigits(body) then None
      else
        var v: int := Value(body);
        Some(if s[0] == MINUS then -v else v)
  }

  lemma {:induction false} ValueOfDigits(n: nat)
    ensures AllDigits(Digits(n)) && Value(Digits(n)) == n
  {
    if n >= 10 {
      ValueOfDigits(n / 10);
      assert Digits(n)[..|Digits(n)| - 1] == Digits(n / 10);
    }
  }

  lemma SetStringOfIntString(n: int)
    ensures SetString(IntString(n)) == Some(n)
  {
    if n < 0 {
      ValueOfDigits(-n);
      assert IntString(n)[1..] == Digits(-n);
    } else {
      ValueOfDigits(n);
      assert ZERO <= Digits(n)[0];
    }
  }
}
