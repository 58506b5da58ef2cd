/**
 Fibonacci numbers, the 64-bit range of Go's `int`, and the facts that tie
 the two together below the cap that `Fibo` puts on its argument.
 */
module FibMath {

  /** Go's `int` on a 64-bit platform: every value and every intermediate
      result of arithmetic on it must lie in this range. */
  newtype Int64 = x: int | -0x8000_0000_0000_0000 <= x < 0x8000_0000_0000_0000

  const Int64Max: int := 0x7FFF_FFFF_FFFF_FFFF

  /** The Fibonacci sequence: Fib(0) = 0, Fib(1) = 1, Fib(k) = Fib(k-1) + Fib(k-2). */
  ghost function Fib(n: nat): nat
  {
    if n <= 1 then n else Fib(n - 1) + Fib(n - 2)
  }

  /** The sequence never decreases. */
  lemma {:induction false} FibMonotonic(j: nat, k: nat)
    requires j <= k
    ensures Fib(j) <= Fib(k)
  {
    if j < k {
      FibMonotonic(j, k - 1);
    }
  }

  /** The value at the cap of 50. The verifier evaluates Fib on a literal
      argument only about ten levels deep, so the proof climbs in steps of ten,
      each step resting on the two values the previous one established. */
  lemma FibAtCap()
    ensures Fib(50) == 12586269025
  {
    assert Fib(11) == 89 && Fib(10) == 55;
    assert Fib(21) == 10946 && Fib(20) == 6765;
    assert Fib(31) == 1346269 && Fib(30) == 832040;
    assert Fib(41) == 165580141 && Fib(40) == 102334155;
  }

  /** Every Fibonacci number up to the cap fits, with room to spare, in a
      signed 64-bit integer. */
  lemma FibFitsInt64(k: nat)
    requires k <= 50
    ensures Fib(k) <= 12586269025 < Int64Max
  {
    FibMonotonic(k, 50);
    FibAtCap();
  }
}
