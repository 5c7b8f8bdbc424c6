/** Integer helpers shared by every axes component (GenericDrawAxes). */
module DrawAxes {

  function Abs(n: int): nat { if n < 0 then -n else n }

  /** The C++ `%` on `int`: truncates toward zero, so the remainder takes the
      sign of the dividend (Dafny's own `%` is Euclidean). */
  function CppRem(a: int, b: int): (r: int)
    requires b != 0
    ensures Abs(r) < Abs(b)
    ensures a >= 0 ==> 0 <= r
    ensures a < 0 ==> r <= 0
    ensures (a - r) % Abs(b) == 0
  {
    TruncRemIdentity(a, Abs(b));
    if a >= 0 then a % Abs(b) else -((-a) % Abs(b))
  }

  /** What is left once the truncated remainder is taken away is a multiple. */
  lemma TruncRemIdentity(a: int, m: int)
    requires m > 0
    ensures a >= 0 ==> (a - a % m) % m == 0
    ensures a < 0 ==> (a + (-a) % m) % m == 0
  {
    if a >= 0 {
      DivMod(a, m);
      DivModUnique(a - a % m, m, a / m, 0);
    } else {
      var b := -a;
      DivMod(b, m);
      assert a + b % m == m * (-(b / m));
      DivModUnique(a + b % m, m, -(b / m), 0);
    }
  }

  /** Adding `multiple` (of either sign) to a multiple of it gives a multiple. */
  lemma AddMultiple(x: int, multiple: int)
    requires multiple != 0 && x % Abs(multiple) == 0
    ensures (x + multiple) % Abs(multiple) == 0
  {
    var m := Abs(multiple);
    DivMod(x, m);
    var q := x / m;
    if multiple > 0 {
      assert x + multiple == m * (q + 1);
      DivModUnique(x + multiple, m, q + 1, 0);
    } else {
      assert x + multiple == m * (q - 1);
      DivModUnique(x + multiple, m, q - 1, 0);
    }
  }

  /** GenericDrawAxes::roundUp: `numToRound` pushed up to the next multiple of
      `multiple`, computed as the C++ source does it. A zero multiple leaves
      every number as it is; any other multiple gives a multiple of it, and a
      positive one never moves the number down (but, for a negative number,
      can move it up by more than one step; see RoundUpNegativeOvershoots). */
  function RoundUp(numToRound: int, multiple: int): (r: int)
    ensures multiple == 0 ==> r == numToRound
    ensures multiple != 0 ==> r % Abs(multiple) == 0
    ensures multiple > 0 ==> numToRound <= r < numToRound + 2 * multiple
  {
    if multiple == 0 then numToRound
    else
      var remainder := CppRem(numToRound, multiple);
      if remainder == 0 then numToRound
      else
        AddMultiple(numToRound - remainder, multiple);
        numToRound + multiple - remainder
  }

  /** Euclidean division by a positive number, spelt out. */
  lemma DivMod(a: int, m: int)
    requires m > 0
    ensures a == m * (a / m) + a % m && 0 <= a % m < m
  {
  }

  /** Quotient and remainder are determined by the equation they satisfy. */
  lemma DivModUnique(a: int, m: int, q: int, r: int)
    requires m > 0 && 0 <= r < m && a == m * q + r
    ensures a / m == q && a % m == r
  {
    DivMod(a, m);
    var q' := a / m;
    if q' > q {
      assert m * q' >= m * (q + 1) by { MulMonotone(m, q + 1, q'); }
    } else if q' < q {
      assert m * q >= m * (q' + 1) by { MulMonotone(m, q' + 1, q); }
    }
  }

  lemma MulMonotone(m: int, a: int, b: int)
    requires m > 0 && a <= b
    ensures m * a <= m * b
  {
    assert m * b - m * a == m * (b - a);
  }

  /** A number that is already a multiple comes back unchanged. */
  lemma {:induction false} RoundUpKeepsMultiples(k: int, multiple: int)
    ensures RoundUp(multiple * k, multiple) == multiple * k
  {
    if multiple > 0 {
      if k >= 0 {
        DivModUnique(multiple * k, multiple, k, 0);
      } else {
        assert -(multiple * k) == multiple * (-k);
        DivModUnique(multiple * (-k), multiple, -k, 0);
      }
    } else if multiple < 0 {
      var m := -multiple;
      if k >= 0 {
        assert multiple * k == -(m * k);
        assert -(multiple * k) == m * k;
        DivModUnique(m * k, m, k, 0);
      } else {
        assert multiple * k == m * (-k);
        DivModUnique(m * (-k), m, -k, 0);
      }
    }
  }

  /** For a non-negative number and a positive multiple, the result is the
      least multiple of `multiple` that is at least `numToRound`. */
  lemma RoundUpIsLeastMultiple(numToRound: int, multiple: int)
    requires numToRound >= 0 && multiple > 0
    ensures var r := RoundUp(numToRound, multiple);
      && r % multiple == 0
      && numToRound <= r < numToRound + multiple
  {
    var rem := numToRound % multiple;
    var q := numToRound / multiple;
    DivMod(numToRound, multiple);
    if rem != 0 {
      assert RoundUp(numToRound, multiple) == multiple * (q + 1);
      DivModUnique(multiple * (q + 1), multiple, q + 1, 0);
    }
  }

  /** For a negative number that is not a multiple, the truncating remainder
      overshoots: the result is one multiple above the least one at or above
      `numToRound` (RoundUp(-3, 5) == 5, not 0). */
  lemma RoundUpNegativeOvershoots(numToRound: int, multiple: int)
    requires numToRound < 0 && multiple > 0 && numToRound % multiple != 0
    ensures var r := RoundUp(numToRound, multiple);
      && r % multiple == 0
      && numToRound + multiple <= r < numToRound + 2 * multiple
  {
    var a := -numToRound;
    var rem := a % multiple;
    var q := a / multiple;
    DivMod(a, multiple);
    assert rem != 0 by {
      if rem == 0 {
        assert numToRound == multiple * (-q) + 0;
        DivModUnique(numToRound, multiple, -q, 0);
      }
    }
    assert RoundUp(numToRound, multiple) == multiple * (1 - q);
    DivModUnique(multiple * (1 - q), multiple, 1 - q, 0);
  }
}
