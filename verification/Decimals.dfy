/** Printing a decimal and reading its precision and scale back (core/types/decimal.go). A decimal is a coefficient
    n and a scale s and stands for n / 10^s. */
module Decimals {
  import opened Bytes
  import opened DecimalStrings

  const DOT: byte := 46
  const MAX_PRECISION := 1000

  /** Truncation to uint16. */
  function Wrap16(n: nat): nat { n % 0x1_0000 }

  function Abs(n: int): nat { if n < 0 then -n else n }

  // ---- digit strings ----

  predicate NoExtraZero(x: seq<byte>) { |x| == 1 || (|x| > 1 && x[0] != ZERO) }

  lemma {:induction false} DigitsNoExtraZero(n: nat)
    ensures NoExtraZero(Digits(n)) && (n > 0 ==> Digits(n)[0] != ZERO)
  {
    if n >= 10 { DigitsNoExtraZero(n / 10); }
  }

  /** A digit string without extra zeros is the one that big.Int prints. */
  lemma {:induction false} DigitsOfValue(x: seq<byte>)
    requires AllDigits(x) && NoExtraZero(x)
    ensures Digits(Value(x)) == x
    ensures x[0] != ZERO ==> Value(x) > 0
  {
    var y, d := x[..|x| - 1], x[|x| - 1] - ZERO;
    if |x| == 1 {
      assert Value(y) == 0;
      assert x == [ZERO + d];
    } else {
      DigitsOfValue(y);
      assert x == y + [ZERO + d];
      assert Value(x) / 10 == Value(y) && Value(x) % 10 == d;
    }
  }

  lemma {:induction false} DigitsAtMost(x: seq<byte>)
    requires AllDigits(x)
    ensures |Digits(Value(x))| <= if x == [] then 1 else |x|
  {
    if x != [] {
      var y := x[..|x| - 1];
      DigitsAtMost(y);
      assert Value(x) / 10 == Value(y);
      if y == [] { assert Value(x) < 10; }
    }
  }

  lemma {:induction false} SameValue(x: seq<byte>, y: seq<byte>)
    requires AllDigits(x) && AllDigits(y) && |x| == |y| && Value(x) == Value(y)
    ensures x == y
  {
    if x != [] {
      var n := |x| - 1;
      SameValue(x[..n], y[..n]);
      assert x == x[..n] + [x[n]] && y == y[..n] + [y[n]];
    }
  }

  lemma LeadingZero(x: seq<byte>)
    requires AllDigits(x)
    ensures AllDigits([ZERO] + x) && Value([ZERO] + x) == Value(x)
    decreases x
  {
    var z := [ZERO] + x;
    if x == [] {
      assert z[..0] == [];
    } else {
      LeadingZero(x[..|x| - 1]);
      assert z[..|z| - 1] == [ZERO] + x[..|x| - 1];
    }
  }

  // ---- the printed form ----

  /** r is a sign if n is negative, the whole part, and behind a point exactly s digits; together the digits of n. */
  predicate Printed(n: int, s: nat, r: seq<byte>) {
    && (n < 0 ==> r != [] && r[0] == MINUS)
    && PrintedBody(Abs(n), s, if n < 0 && r != [] then r[1..] else r)
  }

  predicate PrintedBody(n: nat, s: nat, b: seq<byte>) {
    if s == 0 then AllDigits(b) && NoExtraZero(b) && Value(b) == n
    else
      && |b| >= s + 2
      && var at := |b| - s - 1;
         && b[at] == DOT
         && AllDigits(b[..at]) && AllDigits(b[at + 1..])
         && NoExtraZero(b[..at])
         && Value(b[..at] + b[at + 1..]) == n
  }

  /** The first padding loop: zeros in front until there are more digits than the scale. */
  method PadLeft(x: seq<byte>, scale: nat) returns (r: seq<byte>)
    requires AllDigits(x) && NoExtraZero(x)
    ensures AllDigits(r) && Value(r) == Value(x)
    ensures |r| > scale && (NoExtraZero(r) || |r| == scale + 1)
  {
    r := x;
    while |r| <= scale
      invariant AllDigits(r) && Value(r) == Value(x)
      invariant NoExtraZero(r) || |r| <= scale + 1
    {
      LeadingZero(r);
      r := [ZERO] + r;
    }
  }

  /** The second padding loop: zeros behind the fraction up to the scale. */
  method PadRight(x: seq<byte>, scale: nat) returns (r: seq<byte>)
    ensures x <= r && |r| == if |x| < scale then scale else |x|
    ensures forall i :: |x| <= i < |r| ==> r[i] == ZERO
  {
    r := x;
    while |r| < scale
      invariant x <= r && (|r| <= scale || r == x)
      invariant forall i :: |x| <= i < |r| ==> r[i] == ZERO
    {
      r := r + [ZERO];
    }
  }

  lemma Pointed(whole: seq<byte>, frac: seq<byte>)
    ensures var b := whole + ([DOT] + frac);
      |b| == |whole| + 1 + |frac| && b[..|whole|] == whole && b[|whole|] == DOT && b[|whole| + 1..] == frac
  {
  }

  lemma PrintedFrom(whole: seq<byte>, frac: seq<byte>, n: nat)
    requires AllDigits(whole) && AllDigits(frac) && NoExtraZero(whole) && frac != []
    requires Value(whole + frac) == n
    ensures PrintedBody(n, |frac|, whole + ([DOT] + frac))
  {
    Pointed(whole, frac);
    assert |whole + ([DOT] + frac)| - |frac| - 1 == |whole|;
  }

  /** The digits of a number without its sign, with the point in place. */
  method FormatDigits(digits: seq<byte>, scale: nat) returns (result: seq<byte>)
    requires AllDigits(digits) && NoExtraZero(digits)
    ensures PrintedBody(Value(digits), scale, result)
  {
    var str := PadLeft(digits, scale);
    var intPart, fracPart := str[..|str| - scale], str[|str| - scale..];
    assert intPart + fracPart == str;
    assert |intPart| == 1 || intPart[0] == str[0];
    var padded := PadRight(fracPart, scale);
    assert padded == fracPart;
    if intPart == [] {
      intPart := [ZERO];
    }
    result := intPart;
    if scale > 0 {
      PrintedFrom(intPart, fracPart, Value(digits));
      result := result + ([DOT] + padded);
    } else {
      assert intPart == str;
    }
  }

  method FormatBigInt(n: int, scale: nat) returns (result: seq<byte>)
    ensures Printed(n, scale, result)
  {
    var str := IntString(n);
    ValueOfDigits(Abs(n));
    DigitsNoExtraZero(Abs(n));
    var isNegative := false;
    if str[0] == MINUS {
      isNegative := true;
      str := str[1..];
    }
    assert str == Digits(Abs(n)) && isNegative == (n < 0);
    var body := FormatDigits(str, scale);
    result := body;
    if isNegative {
      result := [MINUS] + result;
      assert result[1..] == body;
    }
  }

  // ---- reading ----

  /** The first place of the point from i on, or the end. */
  function Point(t: seq<byte>, i: nat): (d: nat)
    requires i <= |t|
    ensures i <= d <= |t| && (d < |t| ==> t[d] == DOT)
    ensures forall j :: i <= j < d ==> t[j] != DOT
    decreases |t| - i
  {
    if i < |t| && t[i] != DOT then Point(t, i + 1) else i
  }

  function Unsigned(s: seq<byte>): seq<byte> { if s != [] && (s[0] == MINUS || s[0] == PLUS) then s[1..] else s }

  /** Digits with at most one point, and at least one digit. */
  predicate PlainBody(b: seq<byte>) {
    var d := Point(b, 0);
    && AllDigits(b[..d])
    && (d < |b| ==> AllDigits(b[d + 1..]))
    && (d > 0 || d + 1 < |b|)
  }

  /** A plain number: a sign or none, and such a body. */
  predicate Plain(s: seq<byte>) { PlainBody(Unsigned(s)) }

  function Fraction(b: seq<byte>): seq<byte> {
    var d := Point(b, 0);
    if d < |b| then b[d + 1..] else []
  }

  function BodyValue(b: seq<byte>): nat
    requires PlainBody(b)
  {
    Value(b[..Point(b, 0)] + Fraction(b))
  }

  /** The coefficient and the scale that a plain number denotes. */
  function Denotes(s: seq<byte>): Option<(int, nat)> {
    if !Plain(s) then None else
    var v: int := BodyValue(Unsigned(s));
    Some((if s[0] == MINUS then -v else v, |Fraction(Unsigned(s))|))
  }

  lemma PointIs(b: seq<byte>, d: nat)
    requires d <= |b| && AllDigits(b[..d]) && (d < |b| ==> b[d] == DOT)
    ensures Point(b, 0) == d
  {
    assert forall j :: 0 <= j < d ==> b[j] == b[..d][j];
  }

  lemma BodyDenotes(n: nat, s: nat, b: seq<byte>)
    requires PrintedBody(n, s, b)
    ensures b != [] && ZERO <= b[0] <= NINE
    ensures Point(b, 0) == if s == 0 then |b| else |b| - s - 1
    ensures PlainBody(b) && BodyValue(b) == n && |Fraction(b)| == s
  {
    if s == 0 {
      assert b[..|b|] == b;
      PointIs(b, |b|);
      assert b + [] == b;
    } else {
      assert b[0] == b[..|b| - s - 1][0];
      PointIs(b, |b| - s - 1);
    }
  }

  /** The printed form denotes n / 10^s. */
  lemma PrintedDenotes(n: int, s: nat, r: seq<byte>)
    requires Printed(n, s, r)
    ensures Denotes(r) == Some((n, s))
  {
    var b := if n < 0 then r[1..] else r;
    BodyDenotes(Abs(n), s, b);
    assert Unsigned(r) == b;
  }

  // ---- precision and scale ----

  /** strings.TrimLeft(s, "-+") */
  function TrimSigns(s: seq<byte>): seq<byte> {
    if s != [] && (s[0] == MINUS || s[0] == PLUS) then TrimSigns(s[1..]) else s
  }

  function TrimZeros(s: seq<byte>): seq<byte> { if s != [] && s[0] == ZERO then TrimZeros(s[1..]) else s }

  function Max(a: nat, b: nat): nat { if a < b then b else a }

  /** Precision and scale of an unsigned number. */
  function InferBody(t: seq<byte>): (nat, nat) {
    var d := Point(t, 0);
    var intPart := Wrap16(|TrimZeros(t[..d])|);
    if d == |t| then (Max(1, intPart), 0) else
    var scale := Wrap16(Point(t, d + 1) - (d + 1));
    (Wrap16(intPart + scale), scale)
  }

  /** inferPrecisionAndScale on plain numbers. */
  function Infer(s: seq<byte>): Option<(nat, nat)> { if Plain(s) then Some(InferBody(TrimSigns(s))) else None }

  function DigitCount(n: int): nat { |Digits(Abs(n))| }

  /** Precision and scale of n / 10^s as NewDecimalFromBigInt sets them, before its check. */
  function Sizes(n: int, s: nat): (nat, nat) { SizesFor(DigitCount(n), s) }

  function SizesFor(len: nat, s: nat): (nat, nat) { (Max(Wrap16(len), Wrap16(s)), Wrap16(s)) }

  function Pow10(e: nat): nat { if e == 0 then 1 else 10 * Pow10(e - 1) }

  /** NewDecimalFromBigInt with CheckDecimalPrecisionAndScale. */
  function NewDecimal(n: int, exp: int): Option<(nat, nat)> {
    var (p, s) := if exp > 0 then Sizes(n * Pow10(exp), 0) else Sizes(n, -exp);
    if p < 1 || p > MAX_PRECISION || s > p then None else Some((p, s))
  }

  /** Significant digits of the whole part of the printed form. */
  lemma WholeDigits(n: nat, s: nat, b: seq<byte>)
    requires PrintedBody(n, s, b)
    ensures var len := |Digits(n)|;
      |TrimZeros(b[..Point(b, 0)])| == if n != 0 && len > s then len - s else 0
    ensures |Digits(n)| <= s ==> s > 0
  {
    BodyDenotes(n, s, b);
    var whole, frac := b[..Point(b, 0)], Fraction(b);
    if whole[0] != ZERO {
      assert NoExtraZero(whole + frac);
      DigitsOfValue(whole + frac);
    } else {
      assert whole == [ZERO];
      assert TrimZeros(whole) == TrimZeros([]) by { assert whole[1..] == []; }
      LeadingZero(frac);
      DigitsAtMost(frac);
      assert s == 0 ==> frac == [];
    }
  }

  /** What reading gives for a whole part of `whole` significant digits and a fraction of s digits. */
  function SizesRead(whole: nat, s: nat): (nat, nat) {
    if s == 0 then (Max(1, Wrap16(whole)), 0) else (Wrap16(Wrap16(whole) + Wrap16(s)), Wrap16(s))
  }

  function Whole(n: nat, s: nat): nat {
    var len := |Digits(n)|;
    if n != 0 && len > s then len - s else 0
  }

  lemma InferBodyPrinted(n: nat, s: nat, b: seq<byte>)
    requires PrintedBody(n, s, b)
    ensures InferBody(b) == SizesRead(Whole(n, s), s)
  {
    BodyDenotes(n, s, b);
    WholeDigits(n, s, b);
  }

  lemma InferPrinted(n: int, s: nat, r: seq<byte>)
    requires Printed(n, s, r)
    ensures Infer(r) == Some(SizesRead(Whole(Abs(n), s), s))
  {
    var b := if n < 0 then r[1..] else r;
    BodyDenotes(Abs(n), s, b);
    InferBodyPrinted(Abs(n), s, b);
    assert Unsigned(r) == b && TrimSigns(r) == b;
  }

  /** What the 16-bit truncations leave of the number of digits and of the scale. */
  predicate Agree(len: nat, s: nat) {
    if s == 0 then Wrap16(len) != 0
    else if len > s then Wrap16(s) <= Wrap16(len)
    else Wrap16(len) <= Wrap16(s)
  }

  lemma WrapSum(a: nat, b: nat)
    ensures Wrap16(Wrap16(a) + Wrap16(b)) == Wrap16(a + b)
  {
  }

  lemma SizesAgree(len: nat, s: nat, zero: bool)
    requires zero ==> len == 1
    ensures SizesRead(if !zero && len > s then len - s else 0, s) == SizesFor(len, s) <==> Agree(len, s)
  {
    if !zero && len > s { WrapSum(len - s, s); }
  }

  /** Reading a printed decimal gives the precision and scale it was made with, exactly when the truncations agree. */
  lemma InferAgreesIff(n: int, s: nat, r: seq<byte>)
    requires Printed(n, s, r)
    ensures Infer(r) == Some(Sizes(n, s)) <==> Agree(DigitCount(n), s)
  {
    InferPrinted(n, s, r);
    SizesAgree(DigitCount(n), s, n == 0);
  }

  lemma WithinLimits(len: nat, s: nat)
    requires 0 < len < 0x1_0000 && s < 0x1_0000
    ensures Agree(len, s) && SizesFor(len, s) == (Max(len, s), s)
  {
  }

  /** Within 16 bits they always agree, and the precision limit decides alone whether the decimal is accepted. */
  lemma InferAgrees(n: int, s: nat, r: seq<byte>)
    requires Printed(n, s, r) && DigitCount(n) < 0x1_0000 && s < 0x1_0000
    ensures Infer(r) == Some((Max(DigitCount(n), s), s))
    ensures NewDecimal(n, 0 - s) == if Max(DigitCount(n), s) <= MAX_PRECISION then Infer(r) else None
  {
    WithinLimits(DigitCount(n), s);
    InferAgreesIff(n, s, r);
  }

  lemma {:induction false} DigitsOfPow10(e: nat)
    ensures |Digits(Pow10(e))| == e + 1
    ensures Pow10(e) > 0
  {
    if e > 0 {
      DigitsOfPow10(e - 1);
      assert Pow10(e) / 10 == Pow10(e - 1) && Pow10(e) >= 10;
    }
  }

  lemma WrappedSizes()
    ensures SizesFor(0x1_0000, 1) == (1, 1) && SizesRead(0xFFFF, 1) == (0, 1)
  {
  }

  /** A number of 65536 digits is accepted as one of precision 1, and reading it back gives precision 0. */
  lemma TooManyDigits(n: nat, r: seq<byte>)
    requires DigitCount(n) == 0x1_0000 && Printed(n, 1, r)
    ensures NewDecimal(n, -1) == Some((1, 1)) && Infer(r) == Some((0, 1))
  {
    assert n != 0;
    InferPrinted(n, 1, r);
    WrappedSizes();
  }

  // ---- the printed form is the only one ----

  lemma WholeLength(n: nat, s: nat, b: seq<byte>)
    requires PrintedBody(n, s, b)
    ensures Point(b, 0) == Max(1, Whole(n, s))
  {
    BodyDenotes(n, s, b);
    WholeDigits(n, s, b);
    var whole := b[..Point(b, 0)];
    if whole[0] == ZERO { assert whole[1..] == []; }
  }

  lemma Cut(a: seq<byte>, b: seq<byte>, c: seq<byte>, d: seq<byte>)
    requires a + b == c + d && |a| == |c|
    ensures a == c && b == d
  {
    assert (a + b)[..|a|] == a && (c + d)[..|c|] == c;
    assert (a + b)[|a|..] == b && (c + d)[|c|..] == d;
  }

  lemma Around(b: seq<byte>, d: nat)
    requires d < |b|
    ensures b == b[..d] + ([b[d]] + b[d + 1..])
  {
  }

  lemma SameHead(a: seq<byte>, b: seq<byte>)
    requires a != [] && b != [] && a[0] == b[0] && a[1..] == b[1..]
    ensures a == b
  {
    assert a == [a[0]] + a[1..] && b == [b[0]] + b[1..];
  }

  lemma SameParts(a: seq<byte>, b: seq<byte>, d: nat)
    requires |a| == |b| && Point(a, 0) == Point(b, 0) == d
    requires a[..d] == b[..d] && Fraction(a) == Fraction(b)
    ensures a == b
  {
    if d < |a| {
      Around(a, d);
      Around(b, d);
    } else {
      assert a[..d] == a && b[..d] == b;
    }
  }

  lemma BodyUnique(n: nat, s: nat, a: seq<byte>, b: seq<byte>)
    requires PrintedBody(n, s, a) && PrintedBody(n, s, b)
    ensures a == b
  {
    WholeLength(n, s, a);
    WholeLength(n, s, b);
    BodyDenotes(n, s, a);
    BodyDenotes(n, s, b);
    var d := Point(a, 0);
    SameValue(a[..d] + Fraction(a), b[..d] + Fraction(b));
    Cut(a[..d], Fraction(a), b[..d], Fraction(b));
    SameParts(a, b, d);
  }

  /** Only one string is the printed form of n / 10^s. */
  lemma PrintedUnique(n: int, s: nat, a: seq<byte>, b: seq<byte>)
    requires Printed(n, s, a) && Printed(n, s, b)
    ensures a == b
  {
    if n < 0 {
      BodyUnique(Abs(n), s, a[1..], b[1..]);
      SameHead(a, b);
    } else {
      BodyUnique(Abs(n), s, a, b);
    }
  }
}
