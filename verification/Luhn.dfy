/**
 The check-digit formula of ISO/IEC 7812-1, Annex B, as computed by `luhn_valid` in
 app/common/pii/checksums.py, and the errors it detects.
 */
module Luhn {

  predicate IsDigit(c: char) { '0' <= c <= '9' }

  function Digit(c: char): int { c as int - '0' as int }

  predicate Digits(s: string) { forall i | 0 <= i < |s| :: IsDigit(s[i]) }

  /** What a digit adds at an index counted from the right: every second one is doubled and casts out nine. */
  function Contribution(index: nat, d: int): int {
    if index % 2 == 0 then d else if 2 * d > 9 then 2 * d - 9 else 2 * d
  }

  /** The sum when the last digit has index `shift`. */
  function Sum(s: string, shift: nat): int {
    if s == "" then 0 else Sum(s[..|s| - 1], shift + 1) + Contribution(shift, Digit(s[|s| - 1]))
  }

  predicate Valid(s: string) { Digits(s) && |s| >= 2 && Sum(s, 0) % 10 == 0 }

  method LuhnValid(digits: string) returns (valid: bool)
    ensures valid == Valid(digits)
  {
    if !Digits(digits) || |digits| < 2 { return false; }
    var total, n := 0, |digits|;
    assert digits[..n] == digits;
    for index := 0 to n
      invariant total + Sum(digits[..n - index], index) == Sum(digits, 0)
    {
      var value := Digit(digits[n - 1 - index]);
      assert digits[..n - index][..n - 1 - index] == digits[..n - 1 - index];
      if index % 2 == 1 {
        value := value * 2;
        if value > 9 { value := value - 9; }
      }
      total := total + value;
    }
    valid := total % 10 == 0;
  }

  // ----- the formula by digit sums -----

  function DigitSum(n: int): int { n / 10 + n % 10 }

  /** From the left: every digit before an odd number of others is doubled, and digit sums are added. */
  function Weighted(s: string): int {
    if s == "" then 0
    else DigitSum(if |s| % 2 == 0 then 2 * Digit(s[0]) else Digit(s[0])) + Weighted(s[1..])
  }

  lemma {:induction false} SumFromLeft(s: string, shift: nat)
    requires s != ""
    ensures Sum(s, shift) == Contribution(|s| - 1 + shift, Digit(s[0])) + Sum(s[1..], shift)
  {
    var n := |s| - 1;
    if n == 0 {
      assert s[..0] == "" && s[1..] == "";
    } else {
      SumFromLeft(s[..n], shift + 1);
      assert s[..n][1..] == s[1..][..n - 1] && s[1..][n - 1] == s[n];
    }
  }

  lemma {:induction false} SumIsWeighted(s: string)
    requires Digits(s)
    ensures Sum(s, 0) == Weighted(s)
  {
    if s != "" {
      SumFromLeft(s, 0);
      SumIsWeighted(s[1..]);
    }
  }

  /** A number is valid when it has two digits at least and its weighted digit sums are divisible by ten. */
  lemma ValidMeans(s: string)
    ensures Valid(s) <==> (forall i | 0 <= i < |s| :: '0' <= s[i] <= '9') && |s| >= 2 && Weighted(s) % 10 == 0
  {
    if Digits(s) { SumIsWeighted(s); }
  }

  /** The index of a position counted from the right. */
  function IndexOf(s: string, i: nat, shift: nat): nat
    requires i < |s|
  {
    |s| - 1 - i + shift
  }

  lemma {:induction false} SumUpdate(s: string, i: nat, c: char, shift: nat)
    requires i < |s|
    ensures Sum(s[i := c], shift)
         == Sum(s, shift) - Contribution(IndexOf(s, i, shift), Digit(s[i]))
           + Contribution(IndexOf(s, i, shift), Digit(c))
  {
    var n := |s| - 1;
    if i < n {
      assert s[i := c][..n] == s[..n][i := c];
      SumUpdate(s[..n], i, c, shift + 1);
    } else {
      assert s[i := c][..n] == s[..n];
    }
  }

  /** Different digits contribute differently at any index, and at most nine apart. */
  lemma ContributionInjective(index: nat, a: char, b: char)
    requires IsDigit(a) && IsDigit(b)
    ensures Contribution(index, Digit(a)) % 10 == Contribution(index, Digit(b)) % 10 ==> a == b
    ensures 0 <= Contribution(index, Digit(a)) <= 9
  {}

  function CheckDigit(payload: string): char { ('0' as int + (10 - Sum(payload, 1) % 10) % 10) as char }

  lemma CheckArithmetic(sum: int, d: int)
    requires 0 <= d <= 9
    ensures (sum + d) % 10 == 0 <==> d == (10 - sum % 10) % 10
  {
    assert (sum + d) % 10 == (sum % 10 + d) % 10;
  }

  /** Exactly one last digit makes a payload valid. */
  lemma UniqueCheckDigit(payload: string, c: char)
    requires Digits(payload) && payload != ""
    ensures IsDigit(CheckDigit(payload))
    ensures Valid(payload + [c]) <==> c == CheckDigit(payload)
  {
    var s := payload + [c];
    assert s[..|payload|] == payload;
    assert Sum(s, 0) == Sum(payload, 1) + Digit(c);
    if IsDigit(c) {
      assert Digits(s);
      CheckArithmetic(Sum(payload, 1), Digit(c));
    } else {
      assert !IsDigit(s[|payload|]);
    }
  }

  /** Changing any one digit of a valid number makes it invalid. */
  lemma SubstitutionDetected(s: string, i: nat, c: char)
    requires Valid(s) && i < |s| && IsDigit(c) && c != s[i]
    ensures !Valid(s[i := c])
  {
    SumUpdate(s, i, c, 0);
    var index := IndexOf(s, i, 0);
    ContributionInjective(index, s[i], c);
    ContributionInjective(index, c, s[i]);
    Apart(Sum(s, 0), Contribution(index, Digit(s[i])), Contribution(index, Digit(c)));
  }

  lemma Apart(sum: int, before: int, after: int)
    requires sum % 10 == 0 && 0 <= before <= 9 && 0 <= after <= 9 && before != after
    ensures (sum - before + after) % 10 != 0
  {}

  function Swapped(s: string, i: nat): string
    requires i + 1 < |s|
  {
    s[i := s[i + 1]][i + 1 := s[i]]
  }

  lemma SwapPair(index: nat, a: char, b: char)
    requires IsDigit(a) && IsDigit(b) && a != b
    ensures var before := Contribution(index + 1, Digit(a)) + Contribution(index, Digit(b));
            var after := Contribution(index + 1, Digit(b)) + Contribution(index, Digit(a));
      (after - before) % 10 == 0 <==> {a, b} == {'0', '9'}
  {
    if index % 2 == 0 {
      SwapDifference(Digit(a), Digit(b));
    } else {
      SwapDifference(Digit(b), Digit(a));
    }
  }

  lemma SwapDifference(x: int, y: int)
    requires 0 <= x <= 9 && 0 <= y <= 9 && x != y
    ensures (Contribution(1, y) + x - Contribution(1, x) - y) % 10 == 0 <==> (x == 0 && y == 9) || (x == 9 && y == 0)
  {}

  /** Swapping two adjacent different digits of a valid number is detected, except for 0 and 9. */
  lemma SwapDetectedIff(s: string, i: nat)
    requires Valid(s) && i + 1 < |s| && s[i] != s[i + 1]
    ensures !Valid(Swapped(s, i)) <==> {s[i], s[i + 1]} != {'0', '9'}
  {
    var half := s[i := s[i + 1]];
    SumUpdate(s, i, s[i + 1], 0);
    SumUpdate(half, i + 1, s[i], 0);
    SwapPair(IndexOf(s, i + 1, 0), s[i], s[i + 1]);
    SameRemainder(Sum(s, 0), Sum(Swapped(s, i), 0));
    assert Digits(Swapped(s, i));
  }

  lemma SameRemainder(before: int, after: int)
    requires before % 10 == 0
    ensures after % 10 == 0 <==> (after - before) % 10 == 0
  {}
}
