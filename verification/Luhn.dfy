/** Card numbers: packages/domain/security/pci_redaction.py, lines 9-37, against the mod-10 check of
    Annex B of ISO/IEC 7812-1. */
module Luhn {

  type Digit = d: nat | d <= 9

  predicate IsDigit(c: char) { '0' <= c <= '9' }

  function Digits(s: string): seq<Digit> {
    if s == [] then [] else DigitOf(s[0]) + Digits(s[1..])
  }

  function DigitOf(c: char): seq<Digit> { if IsDigit(c) then [c as int - '0' as int] else [] }

  function Print(digits: seq<Digit>): string {
    if digits == [] then "" else ['0' + digits[0] as char] + Print(digits[1..])
  }

  // ---------------------------------------------------------------- the standard's form

  /** Twice a digit, with the digits of the product added together. */
  function DoubledDigitSum(d: Digit): nat { 2 * d / 10 + 2 * d % 10 }

  lemma DoublingIs(d: Digit)
    ensures DoubledDigitSum(d) == if 2 * d > 9 then 2 * d - 9 else 2 * d
  {
    if 2 * d > 9 {
      assert 2 * d / 10 == 1 && 2 * d % 10 == 2 * d - 10;
    }
  }

  function Weight(d: Digit, double: bool): nat { if double then DoubledDigitSum(d) else d }

  /** Every other digit is doubled, counted from the right. */
  function Checksum(digits: seq<Digit>, double: bool): nat {
    if digits == [] then 0
    else Weight(digits[|digits| - 1], double) + Checksum(digits[..|digits| - 1], !double)
  }

  predicate Valid(digits: seq<Digit>) { 13 <= |digits| <= 19 && Checksum(digits, false) % 10 == 0 }

  // ---------------------------------------------------------------- the program

  method IsLuhnValid(cardNumber: string) returns (valid: bool)
    ensures valid <==> Valid(Digits(cardNumber))
  {
    var digits := Digits(cardNumber);
    if !(13 <= |digits| <= 19) { return false; }
    var checksum := 0;
    var parity := (|digits| - 2) % 2;
    assert digits[..|digits|] == digits;
    for i := |digits| downto 0
      invariant checksum + Checksum(digits[..i], OddGap(|digits|, i)) == Checksum(digits, false)
    {
      LastDigit(digits, i);
      var d: int := digits[i];
      if i % 2 == parity {
        d := d * 2;
        if d > 9 { d := d - 9; }
      }
      checksum := checksum + d;
    }
    return checksum % 10 == 0;
  }

  predicate OddGap(n: nat, i: nat) { (n + i) % 2 == 1 }

  /** Doubling by the parity of the index from the left is doubling every other digit from the right. */
  lemma LastDigit(digits: seq<Digit>, i: nat)
    requires i < |digits|
    ensures
      var d := digits[i];
      var weight: int := if i % 2 == (|digits| - 2) % 2 then (if 2 * d > 9 then 2 * d - 9 else 2 * d) else d as int;
      Checksum(digits[..i + 1], OddGap(|digits|, i + 1)) == weight + Checksum(digits[..i], OddGap(|digits|, i))
  {
    LastTerm(digits, i, OddGap(|digits|, i + 1));
    SameParity(|digits|, i);
    DoublingIs(digits[i]);
  }

  lemma {:induction false} LastTerm(digits: seq<Digit>, i: nat, double: bool)
    requires i < |digits|
    ensures Checksum(digits[..i + 1], double) == Weight(digits[i], double) + Checksum(digits[..i], !double)
  {
    assert digits[..i + 1][..i] == digits[..i];
  }

  lemma SameParity(n: nat, i: nat)
    requires i < n
    ensures OddGap(n, i + 1) == (i % 2 == (n - 2) % 2) && OddGap(n, i) == !OddGap(n, i + 1)
  {
    var a, b, p, q := n / 2, i / 2, n % 2, i % 2;
    assert n == 2 * a + p && i == 2 * b + q;
    Halves(a + b, p + q);
    Halves(a + b, p + q + 1);
    Halves(a - 1, p);
  }

  lemma Halves(a: int, b: int)
    ensures (2 * a + b) % 2 == b % 2
  {
  }

  const STARS := "************"

  function Masked(matched: string): string {
    var digits := Digits(matched);
    if Valid(digits) then MaskOf(digits) else matched
  }

  function MaskOf(digits: seq<Digit>): string
    requires |digits| >= 4
  {
    STARS + Print(LastFour(digits))
  }

  function LastFour(digits: seq<Digit>): seq<Digit>
    requires |digits| >= 4
  {
    digits[|digits| - 4..]
  }

  method MaskCardNumber(matched: string) returns (text: string)
    ensures text == Masked(matched)
  {
    var digits := Digits(matched);
    DigitsOfPrint(digits);
    var valid := IsLuhnValid(Print(digits));
    if !valid { return matched; }
    return MaskOf(digits);
  }

  // ---------------------------------------------------------------- what the checksum detects

  lemma {:induction false} SplitChecksum(a: seq<Digit>, b: seq<Digit>, double: bool)
    ensures Checksum(a + b, double) == Checksum(b, double) + Checksum(a, double != (|b| % 2 == 1))
    decreases |b|
  {
    if b == [] {
      assert a + b == a;
    } else {
      var init := b[..|b| - 1];
      SplitChecksum(a, init, !double);
      assert (a + b)[..|a + b| - 1] == a + init;
    }
  }

  /** Whether the digit at i is doubled. */
  predicate IsDoubled(n: nat, i: nat)
    requires i < n
  {
    (n - i) % 2 == 0
  }

  lemma Without(digits: seq<Digit>, i: nat) returns (others: nat)
    requires i < |digits|
    ensures forall d: Digit ::
        Checksum(digits[i := d], false) == others + Weight(d, IsDoubled(|digits|, i))
  {
    others := Checksum(digits[i + 1..], false) + Checksum(digits[..i], !IsDoubled(|digits|, i));
    forall d: Digit ensures Checksum(digits[i := d], false) == others + Weight(d, IsDoubled(|digits|, i)) {
      OneOf(digits, i, d);
    }
  }

  lemma {:induction false} OneOf(digits: seq<Digit>, i: nat, d: Digit)
    requires i < |digits|
    ensures Checksum(digits[i := d], false)
         == Checksum(digits[i + 1..], false) + Checksum(digits[..i], !IsDoubled(|digits|, i)) + Weight(d, IsDoubled(|digits|, i))
  {
    var right := digits[i + 1..];
    assert digits[i := d] == digits[..i] + [d] + right;
    SplitChecksum(digits[..i] + [d], right, false);
    assert (digits[..i] + [d])[..i] == digits[..i];
    assert (|right| % 2 == 1) == IsDoubled(|digits|, i);
  }
  /** The same remainder by ten, for numbers below twenty. */
  predicate Alike(a: nat, b: nat) { a == b || a == b + 10 || b == a + 10 }

  lemma SameRemainder(others: nat, a: nat, b: nat)
    requires a < 20 && b < 20
    ensures (others + a) % 10 == (others + b) % 10 <==> Alike(a, b)
  {
    var x, y := others + a, others + b;
    assert x == 10 * (x / 10) + x % 10 && y == 10 * (y / 10) + y % 10;
  }

  /** Doubling rearranges the ten digits, so no two of them weigh the same. */
  lemma WeightsDiffer(a: Digit, b: Digit, double: bool)
    ensures Weight(a, double) < 10 && Weight(b, double) < 10
    ensures Weight(a, double) == Weight(b, double) <==> a == b
  {
    DoublingIs(a);
    DoublingIs(b);
  }

  lemma ChangedSum(digits: seq<Digit>, changed: seq<Digit>, others: nat, a: nat, b: nat)
    requires Valid(digits) && |changed| == |digits| && a < 20 && b < 20
    requires Checksum(digits, false) == others + a && Checksum(changed, false) == others + b
    ensures Valid(changed) <==> Alike(a, b)
  {
    SameRemainder(others, a, b);
  }

  /** One wrong digit is always noticed. */
  lemma {:induction false} WrongDigitDetected(digits: seq<Digit>, i: nat, d: Digit)
    requires Valid(digits) && i < |digits|
    ensures Valid(digits[i := d]) <==> d == digits[i]
  {
    var others := Without(digits, i);
    var double := IsDoubled(|digits|, i);
    assert digits[i := digits[i]] == digits;
    WeightsDiffer(d, digits[i], double);
    ChangedSum(digits, digits[i := d], others, Weight(digits[i], double), Weight(d, double));
  }

  predicate ZeroAndNine(a: Digit, b: Digit) { (a == 0 && b == 9) || (a == 9 && b == 0) }

  lemma WithoutTwo(digits: seq<Digit>, i: nat, j: nat, a: Digit, b: Digit)
    requires i < j < |digits|
    ensures Checksum(digits[i := a][j := b], false)
         == Checksum(digits[i := 0][j := 0], false) + Weight(a, IsDoubled(|digits|, i)) + Weight(b, IsDoubled(|digits|, j))
  {
    var base := Without(digits[i := 0], j);
    var rest := Without(digits[j := b], i);
    assert digits[j := b][i := a] == digits[i := a][j := b];
    assert digits[j := b][i := 0] == digits[i := 0][j := b];
    assert Checksum(digits[i := 0][j := b], false) == base + Weight(b, IsDoubled(|digits|, j));
    assert Checksum(digits[i := 0][j := 0], false) == base + Weight(0, IsDoubled(|digits|, j));
    assert Checksum(digits[j := b][i := a], false) == rest + Weight(a, IsDoubled(|digits|, i));
    assert Checksum(digits[j := b][i := 0], false) == rest + Weight(0, IsDoubled(|digits|, i));
    DoublingIs(0);
  }

  lemma SwapWeights(a: Digit, b: Digit, double: bool)
    ensures Alike(Weight(a, double) + Weight(b, !double), Weight(b, double) + Weight(a, !double)) <==>
      a == b || ZeroAndNine(a, b)
  {
    DoublingIs(a);
    DoublingIs(b);
  }

  lemma SameSide(n: nat, i: nat, j: nat)
    requires i < j < n
    ensures IsDoubled(n, i) == IsDoubled(n, j) <==> (j - i) % 2 == 0
  {
  }

  /** Two exchanged digits go unnoticed exactly when they are equal, are 0 and 9, or stand an even distance apart. */
  lemma {:induction false} SwapDetected(digits: seq<Digit>, i: nat, j: nat)
    requires Valid(digits) && i < j < |digits|
    ensures Valid(digits[i := digits[j]][j := digits[i]]) <==>
      digits[i] == digits[j] || ZeroAndNine(digits[i], digits[j]) || (j - i) % 2 == 0
  {
    var a, b := digits[i], digits[j];
    var p := IsDoubled(|digits|, i);
    TwoChanged(digits, i, j, b, a);
    SameSide(|digits|, i, j);
    SwapWeights(a, b, p);
    WeightsDiffer(a, b, p);
  }

  /** Two new digits go unnoticed exactly when together they weigh like the old ones. */
  lemma {:induction false} TwoChanged(digits: seq<Digit>, i: nat, j: nat, c: Digit, d: Digit)
    requires Valid(digits) && i < j < |digits|
    ensures
      var p, q := IsDoubled(|digits|, i), IsDoubled(|digits|, j);
      Valid(digits[i := c][j := d]) <==> Alike(Weight(digits[i], p) + Weight(digits[j], q), Weight(c, p) + Weight(d, q))
  {
    var a, b := digits[i], digits[j];
    var p, q := IsDoubled(|digits|, i), IsDoubled(|digits|, j);
    WithoutTwo(digits, i, j, a, b);
    WithoutTwo(digits, i, j, c, d);
    WeightsDiffer(a, c, p);
    WeightsDiffer(b, d, q);
    assert digits[i := a][j := b] == digits;
    ChangedSum(digits, digits[i := c][j := d], Checksum(digits[i := 0][j := 0], false),
               Weight(a, p) + Weight(b, q), Weight(c, p) + Weight(d, q));
  }

  predicate Twins(a: Digit, b: Digit) { (a == b + 3 && 2 <= b <= 4) || (b == a + 3 && 2 <= a <= 4) }

  lemma TwinWeights(a: Digit, b: Digit, double: bool)
    ensures Alike(Weight(a, double) + Weight(a, !double), Weight(b, double) + Weight(b, !double)) <==>
      a == b || Twins(a, b)
  {
    DoublingIs(a);
    DoublingIs(b);
  }

  /** A doubled digit misread twice goes unnoticed only for 22-55, 33-66 and 44-77. */
  lemma {:induction false} TwinErrorDetected(digits: seq<Digit>, i: nat, d: Digit)
    requires Valid(digits) && i + 1 < |digits| && digits[i] == digits[i + 1]
    ensures Valid(digits[i := d][i + 1 := d]) <==> d == digits[i] || Twins(d, digits[i])
  {
    SameSide(|digits|, i, i + 1);
    TwoChanged(digits, i, i + 1, d, d);
    TwinWeights(digits[i], d, IsDoubled(|digits|, i));
  }

  function CheckDigit(prefix: seq<Digit>): Digit { (10 - Checksum(prefix, true) % 10) % 10 }

  /** Every prefix of 12 to 18 digits is completed by one check digit and no other. */
  lemma OneCheckDigit(prefix: seq<Digit>, d: Digit)
    requires 12 <= |prefix| <= 18
    ensures Valid(prefix + [d]) <==> d == CheckDigit(prefix)
  {
    assert (prefix + [d])[..|prefix|] == prefix;
    assert Checksum(prefix + [d], false) == d + Checksum(prefix, true);
    Complement(Checksum(prefix, true), d);
  }

  lemma Complement(sum: nat, d: Digit)
    ensures (d + sum) % 10 == 0 <==> d == (10 - sum % 10) % 10
  {
    assert sum == 10 * (sum / 10) + sum % 10;
  }

  // ---------------------------------------------------------------- what masking keeps

  lemma {:induction false} DigitsAppend(a: string, b: string)
    ensures Digits(a + b) == Digits(a) + Digits(b)
  {
    if a == [] {
      assert a + b == b;
    } else {
      assert (a + b)[1..] == a[1..] + b && (a + b)[0] == a[0];
      DigitsAppend(a[1..], b);
      Associate(DigitOf(a[0]), Digits(a[1..]), Digits(b));
    }
  }

  lemma Associate(a: seq<Digit>, b: seq<Digit>, c: seq<Digit>)
    ensures a + (b + c) == a + b + c
  {
  }

  lemma {:induction false} DigitsOfPrint(digits: seq<Digit>)
    ensures Digits(Print(digits)) == digits
  {
    if digits != [] {
      DigitsOfPrint(digits[1..]);
      assert Print(digits)[1..] == Print(digits[1..]);
      assert digits == [digits[0]] + digits[1..];
    }
  }

  lemma {:induction false} NoDigits(s: string)
    requires forall c :: c in s ==> !IsDigit(c)
    ensures Digits(s) == []
  {
    if s != [] {
      assert s[0] in s;
      NoDigits(s[1..]);
    }
  }

  /** Of a valid number, however it is punctuated, only the last four digits are left. */
  lemma {:induction false} MaskKeepsLastFour(matched: string)
    requires Valid(Digits(matched))
    ensures Digits(Masked(matched)) == LastFour(Digits(matched))
  {
    var last := LastFour(Digits(matched));
    NoDigits(STARS);
    DigitsAppend(STARS, Print(last));
    DigitsOfPrint(last);
  }

  /** What comes out is never a valid number, so masking again changes nothing. */
  lemma {:induction false} MaskLeavesNoNumber(matched: string)
    ensures !Valid(Digits(Masked(matched)))
    ensures Masked(Masked(matched)) == Masked(matched)
  {
    if Valid(Digits(matched)) {
      MaskKeepsLastFour(matched);
    }
  }

  /** Two valid numbers mask alike exactly when they end in the same four digits. */
  lemma {:induction false} MaskHidesTheRest(a: string, b: string)
    requires Valid(Digits(a)) && Valid(Digits(b))
    ensures Masked(a) == Masked(b) <==> LastFour(Digits(a)) == LastFour(Digits(b))
  {
    MaskKeepsLastFour(a);
    MaskKeepsLastFour(b);
  }
}
