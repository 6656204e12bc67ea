/** The personal-account annuity divisor: months of expected remaining life
    by claim age, used to turn an account balance into a monthly amount. */
module Annuity {
  import opened Policy

  const FirstAge: int := 40
  const LastAge: int := 70

  /** Divisors for ages 40, 41, ..., 70 in order. */
  const Divisors: seq<int> := [
    233, 230, 226, 223, 220,
    216, 212, 208, 204, 199,
    195, 190, 185, 180, 175,
    170, 164, 158, 152, 145,
    139, 132, 125, 117, 109,
    101, 93, 84, 75, 65, 56]

  /** Used when the table has no (non-zero) entry for the key. */
  const FallbackDivisor: int := 139

  /** Each entry of the table is strictly smaller than the one before it. */
  lemma DivisorsStrictlyDecreasing(i: int)
    requires 0 <= i < |Divisors| - 1
    ensures Divisors[i] > Divisors[i + 1]
  {
  }

  lemma {:induction false} DivisorsNonIncreasing(i: int, j: int)
    requires 0 <= i <= j < |Divisors|
    ensures Divisors[i] >= Divisors[j]
    decreases j - i
  {
    if i < j {
      DivisorsStrictlyDecreasing(i);
      DivisorsNonIncreasing(i + 1, j);
    }
  }

  /** The key actually looked up: the age floored, then clamped to the table. */
  function LookupKey(age: real): (key: int)
    ensures FirstAge <= key <= LastAge
    ensures FirstAge <= age.Floor <= LastAge ==> key == age.Floor
    ensures age.Floor < FirstAge ==> key == FirstAge
    ensures age.Floor > LastAge ==> key == LastAge
  {
    var intAge := age.Floor;
    if intAge > LastAge then LastAge
    else if intAge < FirstAge then FirstAge
    else intAge
  }

  /** The table lookup keyed by integer age, falling back when the key has no
      entry or a zero one. Every key in range has a non-zero entry, so the
      fallback only serves keys outside the table. */
  function TableEntry(key: int): (d: int)
    ensures FirstAge <= key <= LastAge ==> d == Divisors[key - FirstAge]
    ensures !(FirstAge <= key <= LastAge) ==> d == FallbackDivisor
  {
    if FirstAge <= key <= LastAge && Divisors[key - FirstAge] != 0 then Divisors[key - FirstAge]
    else FallbackDivisor
  }

  /** Flooring and clamping keep the order of ages. */
  lemma LookupKeyMonotone(a: real, b: real)
    requires a <= b
    ensures LookupKey(a) <= LookupKey(b)
  {
    assert a.Floor <= b.Floor;
  }

  function Divisor(age: real): (d: int)
    ensures d == Divisors[LookupKey(age) - FirstAge]
    ensures 56 <= d <= 233
    ensures age < (FirstAge + 1) as real ==> d == 233
    ensures age >= LastAge as real ==> d == 56
  {
    TableEntry(LookupKey(age))
  }

  /** A later claim age never gets a larger divisor. */
  lemma DivisorMonotone(a: real, b: real)
    requires a <= b
    ensures Divisor(a) >= Divisor(b)
  {
    LookupKeyMonotone(a, b);
    DivisorsNonIncreasing(LookupKey(a) - FirstAge, LookupKey(b) - FirstAge);
  }
}
