/** The Fibonacci program, crates/soul-cairo/src/fibonacci.cairo, and the exact range of its input bound. */
module Fibonacci {
  import opened Wrappers
  import opened Felt
  import opened Types

  /** The integer Fibonacci numbers. */
  function Fib(n: nat): nat {
    if n < 2 then n else Fib(n - 2) + Fib(n - 1)
  }

  function FeltAdd(a: Felt, b: Felt): Felt {
    (a + b) % CAIRO_PRIME
  }

  /** The loop keeps two consecutive Fibonacci numbers modulo the prime. `None` is Cairo's panic on the
      checked `i += 1`, which only the largest u64 reaches. */
  method ComputeFibonacci(n: U64) returns (r: Option<Felt>)
    ensures r == if n == U64_LIMIT - 1 then None else Some(Fib(n) % CAIRO_PRIME)
  {
    if n == 0 {
      return Some(0);
    }
    if n == 1 {
      return Some(1);
    }
    var a: Felt, b: Felt := 0, 1;
    var i: U64 := 2;
    while true
      invariant 2 <= i <= n + 1
      invariant a == Fib(i - 2) % CAIRO_PRIME && b == Fib(i - 1) % CAIRO_PRIME
      decreases n + 1 - i
    {
      if i > n {
        break;
      }
      var temp := b;
      SumModPrime(Fib(i - 2), Fib(i - 1));
      b := FeltAdd(a, b);
      a := temp;
      if i == U64_LIMIT - 1 {
        return None;
      }
      i := i + 1;
    }
    return Some(b);
  }

  lemma SumModPrime(x: nat, y: nat)
    ensures (x % CAIRO_PRIME + y % CAIRO_PRIME) % CAIRO_PRIME == (x + y) % CAIRO_PRIME
  {
  }

  /** The addition law, which halves an index. */
  lemma {:induction false} FibAddition(m: nat, n: nat)
    ensures Fib(m + n + 1) == Fib(m) * Fib(n) + Fib(m + 1) * Fib(n + 1)
    decreases m
  {
    if m == 0 {
    } else {
      FibAddition(m - 1, n + 1);
      Regroup(Fib(m + n + 1), Fib(m - 1), Fib(m), Fib(m + 1), Fib(n), Fib(n + 1), Fib(n + 2));
    }
  }

  lemma Regroup(sum: nat, a: nat, b: nat, ab: nat, c: nat, d: nat, cd: nat)
    requires ab == a + b && cd == c + d && sum == a * d + b * cd
    ensures sum == b * c + ab * d
  {
  }

  lemma FibDouble(n: nat, x: nat, y: nat)
    requires Fib(n) == x && Fib(n + 1) == y
    ensures Fib(2 * n + 1) == x * x + y * y
    ensures Fib(2 * n + 2) == x * y + y * (x + y)
  {
    FibAddition(n, n);
    FibAddition(n, n + 1);
    assert n + n == 2 * n;
  }

  /** F(363) and F(364), by seven doublings. */
  lemma FibAtBound()
    ensures Fib(363) < CAIRO_PRIME <= Fib(364)
  {
    FibDouble(2, 1, 2);
    FibDouble(5, 5, 8);
    FibDouble(11, 89, 144);
    FibDouble(22, 17711, 28657);
    FibDouble(45, 1134903170, 1836311903);
    FibDouble(90, 2880067194370816120, 4660046610375530309);
    FibDouble(181, 30010821454963453907530667147829489881, 48558529144435440119720805669229197641);
  }

  lemma {:induction false} FibMonotone(m: nat, n: nat)
    requires m <= n
    ensures Fib(m) <= Fib(n)
    decreases n
  {
    if m < n {
      FibMonotone(m, n - 1);
    }
  }

  /** 363 is exactly the largest index whose Fibonacci number is below the prime. */
  lemma BoundIsTight(n: nat)
    ensures n <= MAX_FIBONACCI_N <==> Fib(n) < CAIRO_PRIME
  {
    hide Fib;
    FibAtBound();
    if n <= 363 {
      FibMonotone(n, 363);
    } else {
      FibMonotone(364, n);
    }
  }

  /** Hence the program returns the integer Fibonacci number, with no wrap, exactly on the accepted range. */
  lemma NoWrapExactlyInRange(n: nat)
    ensures Fib(n) % CAIRO_PRIME == Fib(n) <==> n <= MAX_FIBONACCI_N
  {
    BoundIsTight(n);
  }
}
