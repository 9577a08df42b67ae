/**
 * The recursive Fibonacci benchmark (`benchmarks/fib.cpp`) on C++ `int`, a
 * 32-bit signed integer whose overflow is undefined behaviour.
 */
module Fib {
  import opened Wrappers

  const INT_MAX: int := 0x7FFF_FFFF

  /** The mathematical recursion of `fib`: `n` itself below 2 (negative numbers included). */
  function Fib(n: int): int
    decreases n
  {
    if n < 2 then n else Fib(n - 1) + Fib(n - 2)
  }

  /**
   * `fib` on `int`: `None` once any addition the recursion performs
   * overflows, where the program's behaviour is undefined.
   */
  function Fib32(n: int): Option<int>
    decreases n
  {
    if n < 2 then Some(n)
    else
      match (Fib32(n - 1), Fib32(n - 2))
      case (Some(a), Some(b)) => if a + b <= INT_MAX then Some(a + b) else None
      case _ => None
  }

  /** An independent, linear definition: the pair (F(k), F(k+1)) stepped `n` times from (0, 1). */
  function FibPair(n: nat): (int, int) {
    if n == 0 then (0, 1) else var (a, b) := FibPair(n - 1); (b, a + b)
  }

  /** The recursion and the stepped pair agree. */
  lemma {:induction false} FibPairAgrees(n: nat)
    ensures FibPair(n) == (Fib(n), Fib(n + 1))
  {
    if n > 0 {
      FibPairAgrees(n - 1);
    }
  }

  /** The sequence never decreases from 1 on, and is non-negative from 0 on. */
  lemma {:induction false} FibMonotonic(m: nat, n: nat)
    requires 1 <= m <= n
    ensures 0 < Fib(m) <= Fib(n)
    decreases n
  {
    if n > m {
      FibMonotonic(m, n - 1);
      FibNonNegative(n - 2);
    } else {
      FibPositive(m);
    }
  }

  lemma {:induction false} FibNonNegative(n: nat)
    ensures Fib(n) >= 0
  {
    if n >= 2 {
      FibNonNegative(n - 1);
      FibNonNegative(n - 2);
    }
  }

  lemma {:induction false} FibPositive(n: nat)
    requires n >= 1
    ensures Fib(n) > 0
  {
    if n >= 2 {
      FibPositive(n - 1);
      FibNonNegative(n - 2);
    }
  }

  /** The values the benchmark depends on, one recursion step at a time. */
  lemma FibValues()
    ensures Fib(38) == 39088169
    ensures Fib(46) == 1836311903
    ensures Fib(47) == 2971215073
  {
    assert Fib(2) == 1;
    assert Fib(3) == 2;
    assert Fib(4) == 3;
    assert Fib(5) == 5;
    assert Fib(6) == 8;
    assert Fib(7) == 13;
    assert Fib(8) == 21;
    assert Fib(9) == 34;
    assert Fib(10) == 55;
    assert Fib(11) == 89;
    assert Fib(12) == 144;
    assert Fib(13) == 233;
    assert Fib(14) == 377;
    assert Fib(15) == 610;
    assert Fib(16) == 987;
    assert Fib(17) == 1597;
    assert Fib(18) == 2584;
    assert Fib(19) == 4181;
    assert Fib(20) == 6765;
    assert Fib(21) == 10946;
    assert Fib(22) == 17711;
    assert Fib(23) == 28657;
    assert Fib(24) == 46368;
    assert Fib(25) == 75025;
    assert Fib(26) == 121393;
    assert Fib(27) == 196418;
    assert Fib(28) == 317811;
    assert Fib(29) == 514229;
    assert Fib(30) == 832040;
    assert Fib(31) == 1346269;
    assert Fib(32) == 2178309;
    assert Fib(33) == 3524578;
    assert Fib(34) == 5702887;
    assert Fib(35) == 9227465;
    assert Fib(36) == 14930352;
    assert Fib(37) == 24157817;
    assert Fib(38) == 39088169;
    assert Fib(39) == 63245986;
    assert Fib(40) == 102334155;
    assert Fib(41) == 165580141;
    assert Fib(42) == 267914296;
    assert Fib(43) == 433494437;
    assert Fib(44) == 701408733;
    assert Fib(45) == 1134903170;
    assert Fib(46) == 1836311903;
    assert Fib(47) == 2971215073;
  }

  /**
   * `fib(n)` is free of overflow exactly up to 46: there every addition fits
   * an `int` and the result is the true Fibonacci number; at 47 the last
   * addition overflows.
   */
  lemma {:induction false} Fib32Exact(n: int)
    requires n <= 46
    ensures Fib32(n) == Some(Fib(n))
    decreases n
  {
    if n >= 2 {
      Fib32Exact(n - 1);
      Fib32Exact(n - 2);
      FibMonotonic(n, 46);
      FibValues();
    }
  }

  lemma Fib32Overflows()
    ensures Fib32(47).None?
  {
    Fib32Exact(46);
    Fib32Exact(45);
    FibValues();
    assert Fib(47) == Fib(46) + Fib(45);
  }

  /** `main` prints `fib(38)`, which is 39088169: the benchmark stays clear of overflow. */
  lemma MainPrints()
    ensures Fib32(38) == Some(39088169)
  {
    Fib32Exact(38);
    FibValues();
  }
}
