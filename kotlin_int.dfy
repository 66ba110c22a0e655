/**
 * Kotlin's `Int` arithmetic where the operands are not constants: the
 * product, and division and remainder by a positive divisor. Unlike
 * Dafny's Euclidean operators Kotlin's truncate toward zero, so a negative
 * dividend gives a non-positive quotient rounded up and a remainder with the
 * dividend's sign.
 *
 * The three are defined by repeated addition and subtraction, which keeps
 * products of unknowns out of the proofs that use them; `MulIsProduct` and
 * `NonNegative` relate them to Dafny's `*`, `/` and `%`, and the lemmas
 * below state what the rest of the model needs in their own terms.
 */
module KotlinInt {

  /** `a * b`. */
  function Mul(a: int, b: int): int
    decreases if b >= 0 then b else -b
  {
    if b == 0 then 0 else if b > 0 then Mul(a, b - 1) + a else Mul(a, b + 1) - a
  }

  /** How many times `b` fits into `a`. */
  function NatDiv(a: nat, b: int): nat
    requires b > 0
    decreases a
  {
    if a < b then 0 else NatDiv(a - b, b) + 1
  }

  /** What is left of `a` once `b` has been taken away as often as it fits. */
  function NatRem(a: nat, b: int): nat
    requires b > 0
    decreases a
  {
    if a < b then a else NatRem(a - b, b)
  }

  /** `a / b` in Kotlin, for `b > 0`. */
  function Div(a: int, b: int): int
    requires b > 0
  {
    if a >= 0 then NatDiv(a, b) else -(NatDiv(-a, b) as int)
  }

  /** `a % b` in Kotlin, for `b > 0`. */
  function Rem(a: int, b: int): int
    requires b > 0
  {
    if a >= 0 then NatRem(a, b) else -(NatRem(-a, b) as int)
  }

  lemma {:induction false} MulIsProduct(a: int, b: int)
    ensures Mul(a, b) == a * b
    decreases if b >= 0 then b else -b
  {
    if b > 0 {
      MulIsProduct(a, b - 1);
    } else if b < 0 {
      MulIsProduct(a, b + 1);
    }
  }

  lemma {:induction false} NatDivRem(a: nat, b: int)
    requires b > 0
    ensures NatDiv(a, b) == a / b && NatRem(a, b) == a % b
    decreases a
  {
    if a >= b {
      NatDivRem(a - b, b);
      var q, r := (a - b) / b, (a - b) % b;
      assert a == b * (q + 1) + r;
      DivUnique(a, b, q + 1, r);
    }
  }

  /** Dafny's quotient and remainder are the only ones with a remainder in `[0, b)`. */
  lemma {:induction false} DivUnique(a: int, b: int, q: int, r: int)
    requires b > 0 && a == b * q + r && 0 <= r < b
    ensures a / b == q && a % b == r
  {
    var q0, r0 := a / b, a % b;
    if q0 < q {
      ProductMonotone(b, q0 + 1, q);
      assert false;
    }
    if q < q0 {
      ProductMonotone(b, q + 1, q0);
      assert false;
    }
  }

  /** On a non-negative dividend Kotlin agrees with Dafny. */
  lemma NonNegative(a: int, b: int)
    requires a >= 0 && b > 0
    ensures Div(a, b) == a / b && Rem(a, b) == a % b
  {
    NatDivRem(a, b);
  }

  /** Quotient and remainder recombine to the dividend, as Kotlin's `%` is defined. */
  lemma DivRem(a: int, b: int)
    requires b > 0
    ensures a == Mul(b, Div(a, b)) + Rem(a, b)
    ensures -b < Rem(a, b) < b
  {
    var n := if a >= 0 then a else -a;
    NatDivRem(n, b);
    MulIsProduct(b, Div(a, b));
    assert n == b * (n / b) + n % b;
  }

  /** The same with Dafny's `*`, for a divisor that is a constant such as 60. */
  lemma DivRemProduct(a: int, b: int)
    requires b > 0
    ensures a == b * Div(a, b) + Rem(a, b) && -b < Rem(a, b) < b
    ensures a >= 0 ==> 0 <= Div(a, b) && 0 <= Rem(a, b) < b
  {
    DivRem(a, b);
    MulIsProduct(b, Div(a, b));
    if a >= 0 {
      NatDivRem(a, b);
    }
  }

  /** Division by a positive divisor is monotone in the dividend. */
  lemma {:induction false} DivMonotone(a1: int, a2: int, b: int)
    requires a1 <= a2 && b > 0
    ensures Div(a1, b) <= Div(a2, b)
  {
    if 0 <= a1 {
      NatDivMonotone(a1, a2, b);
    } else if a2 < 0 {
      NatDivMonotone(-a2, -a1, b);
    }
  }

  lemma {:induction false} NatDivMonotone(a1: nat, a2: nat, b: int)
    requires a1 <= a2 && b > 0
    ensures NatDiv(a1, b) <= NatDiv(a2, b)
    decreases a1
  {
    if a1 >= b {
      NatDivMonotone(a1 - b, a2 - b, b);
    }
  }

  /** A product grows with its second factor when the first is not negative. */
  lemma {:induction false} MulMonotone(b: nat, x: int, y: int)
    requires x <= y
    ensures Mul(b, x) <= Mul(b, y)
  {
    MulIsProduct(b, x);
    MulIsProduct(b, y);
    ProductMonotone(b, x, y);
  }

  lemma {:induction false} ProductMonotone(b: nat, x: int, y: int)
    requires x <= y
    ensures b * x <= b * y
    decreases y - x
  {
    if x < y {
      ProductMonotone(b, x + 1, y);
    }
  }

  /** On a non-negative dividend the quotient is the number of whole divisors it holds. */
  lemma QuotientBounds(a: int, b: int)
    requires a >= 0 && b > 0
    ensures 0 <= Div(a, b) && Mul(b, Div(a, b)) <= a < Mul(b, Div(a, b) + 1)
  {
    DivRem(a, b);
    NatDivRem(a, b);
  }

  /** A zero remainder means the quotient recombines to the dividend. */
  lemma ExactQuotient(a: int, b: int)
    requires b > 0 && Rem(a, b) == 0
    ensures Mul(b, Div(a, b)) == a
  {
    DivRem(a, b);
  }

  /** A multiple of the divisor divides exactly, with the factor as quotient. */
  lemma {:induction false} MultipleQuotient(b: int, n: int)
    requires b > 0
    ensures Div(Mul(b, n), b) == n && Rem(Mul(b, n), b) == 0
  {
    MulIsProduct(b, n);
    var a := b * n;
    if n >= 0 {
      NatDivRem(a, b);
      DivUnique(a, b, n, 0);
    } else {
      assert -a == b * (-n) + 0;
      NatDivRem(-a, b);
      DivUnique(-a, b, -n, 0);
    }
  }

  /** The quotient lies below `n` exactly when the dividend lies below `n` divisors. */
  lemma {:induction false} QuotientVersusFactor(a: int, b: int, n: int)
    requires a >= 0 && b > 0
    ensures Div(a, b) < n <==> a < Mul(b, n)
  {
    QuotientBounds(a, b);
    var q := Div(a, b);
    if q < n {
      MulMonotone(b, q + 1, n);
    } else {
      MulMonotone(b, n, q);
    }
  }
}
