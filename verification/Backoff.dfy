/** The retry delay of a failed event, with Go's 64-bit arithmetic
    (`retryBackoff`, internal/event/outbox_dispatcher.go). */
module Backoff {
  import opened Base

  const MAX_BACKOFF: int := 300_000_000_000

  /** The value a 64-bit signed register holds after `x` is stored in it. */
  function Wrap64(x: int): (w: int)
    ensures -0x8000_0000_0000_0000 <= w < 0x8000_0000_0000_0000
    ensures (w - x) % 0x1_0000_0000_0000_0000 == 0
  {
    var m := x % 0x1_0000_0000_0000_0000;
    if m >= 0x8000_0000_0000_0000 then m - 0x1_0000_0000_0000_0000 else m
  }

  function Pow2(n: nat): int { if n == 0 then 1 else 2 * Pow2(n - 1) }

  /** `1 << k` on a 64-bit signed operand: shifts of 64 and more leave nothing. */
  function ShiftedOne(k: nat): int { if k >= 64 then 0 else Wrap64(Pow2(k)) }

  function RetryBackoff(attempt: int): int {
    var n := if attempt < 1 then 1 else attempt;
    var backoff := Wrap64(Seconds(ShiftedOne(n - 1)));
    if backoff > MAX_BACKOFF then MAX_BACKOFF else backoff
  }

  /** What the backoff is for: one second, doubled per failure, capped at five minutes. */
  function DoublingBackoff(attempt: int): int {
    Min(Seconds(Pow2(Max(attempt, 1) - 1)), MAX_BACKOFF)
  }

  /** The attempts at which the 64-bit product does not spoil the backoff. */
  predicate BackoffExact(attempt: int) {
    attempt <= 34 || attempt in {38, 42, 43, 46, 48, 51, 52, 54}
  }

  lemma {:induction false} Pow2Add(m: nat, n: nat)
    ensures Pow2(m + n) == Pow2(m) * Pow2(n)
  {
    if n == 0 {
    } else {
      Pow2Add(m, n - 1);
      assert Pow2(m + n) == 2 * Pow2(m + (n - 1));
    }
  }

  lemma {:induction false} Pow2Monotone(m: nat, n: nat)
    requires m <= n
    ensures 1 <= Pow2(m) <= Pow2(n)
  {
    if n == 0 {
    } else if m == n {
      Pow2Monotone(m - 1, n - 1);
    } else {
      Pow2Monotone(m, n - 1);
    }
  }

  lemma {:induction false} Pow2Values()
    ensures Pow2(8) == 0x100 && Pow2(9) == 0x200 && Pow2(31) == 0x8000_0000 && Pow2(33) == 0x2_0000_0000
            && Pow2(34) == 0x4_0000_0000
  {
    assert Pow2(4) == 16;
    Pow2Add(4, 4);
    Pow2Add(8, 8);
    Pow2Add(16, 16);
    Pow2Add(32, 1);
  }

  lemma SmallBackoff(attempt: int)
    requires attempt <= 34
    ensures RetryBackoff(attempt) == DoublingBackoff(attempt)
  {
    var n := Max(attempt, 1);
    Pow2Monotone(0, n - 1);
    Pow2Monotone(n - 1, 33);
    Pow2Values();
    InRange(Pow2(n - 1));
    InRange(Seconds(Pow2(n - 1)));
  }

  lemma InRange(x: int)
    requires -0x8000_0000_0000_0000 <= x < 0x8000_0000_0000_0000
    ensures Wrap64(x) == x
  {
  }

  /** one second shifted left by 34, 35, ... 54 places, as 64 bits hold it */
  const WRAPPED_PRODUCTS: seq<int> := [
    -1266874889709551616,
    -2533749779419103232,
    -5067499558838206464,
    8311744956033138688,
    -1823254161643274240,
    -3646508323286548480,
    -7293016646573096960,
    3860710780563357696,
    7721421561126715392,
    -3003900951456120832,
    -6007801902912241664,
    6431140267885068288,
    -5584463537939415040,
    7277816997830721536,
    -3891110078048108544,
    -7782220156096217088,
    2882303761517117440,
    5764607523034234880,
    -6917529027641081856,
    4611686018427387904,
    -9223372036854775808]

  lemma WrapOfDouble(x: int)
    ensures Wrap64(2 * x) == Wrap64(2 * Wrap64(x))
  {
    var q := x / 0x1_0000_0000_0000_0000;
    var m := x % 0x1_0000_0000_0000_0000;
    assert x == 0x1_0000_0000_0000_0000 * q + m;
    MultipleDrops(2 * m, 2 * q);
    MultipleDrops(2 * m - 2 * 0x1_0000_0000_0000_0000, 2);
  }

  lemma MultipleDrops(m: int, q: int)
    ensures Wrap64(m + 0x1_0000_0000_0000_0000 * q) == Wrap64(m)
  {
  }

  /** The product doubles from one attempt to the next, and so does its wrapped value. */
  lemma WrappedDoubling(attempt: nat, wrapped: int)
    requires 1 <= attempt && Wrap64(Seconds(Pow2(attempt - 1))) == wrapped
    ensures Wrap64(Seconds(Pow2(attempt))) == Wrap64(2 * wrapped)
  {
    WrapOfDouble(Seconds(Pow2(attempt - 1)));
  }

  lemma TableDoubles(i: nat)
    requires 1 <= i <= 20
    ensures Wrap64(2 * WRAPPED_PRODUCTS[i - 1]) == WRAPPED_PRODUCTS[i]
  {
  }

  lemma {:induction false} WrappedProduct(attempt: nat)
    requires 35 <= attempt <= 55
    ensures Wrap64(Seconds(Pow2(attempt - 1))) == WRAPPED_PRODUCTS[attempt - 35]
  {
    if attempt == 35 {
      Pow2Values();
    } else {
      WrappedProduct(attempt - 1);
      WrappedDoubling(attempt - 1, WRAPPED_PRODUCTS[attempt - 36]);
      TableDoubles(attempt - 35);
    }
  }

  lemma ShiftFits(k: nat)
    requires k <= 62
    ensures ShiftedOne(k) == Pow2(k)
  {
    Pow2Monotone(0, k);
    Pow2Monotone(k, 62);
    Pow2Values();
    Pow2Add(31, 31);
    InRange(Pow2(k));
  }

  /** The 64th shift leaves only the sign bit, and the product loses it. */
  lemma ShiftToSign()
    ensures Wrap64(Seconds(ShiftedOne(63))) == 0
  {
    Pow2Values();
    Pow2Add(31, 31);
    assert Pow2(63) == 0x8000_0000_0000_0000;
    assert ShiftedOne(63) == -0x8000_0000_0000_0000;
  }

  lemma WrappedBackoff(attempt: int)
    requires 35 <= attempt <= 55
    ensures RetryBackoff(attempt) == MAX_BACKOFF || RetryBackoff(attempt) < 0
    ensures RetryBackoff(attempt) == MAX_BACKOFF <==> BackoffExact(attempt)
  {
    ShiftFits(attempt - 1);
    WrappedProduct(attempt);
  }

  lemma {:induction false} VanishedProduct(attempt: nat)
    requires 56 <= attempt <= 63
    ensures Wrap64(Seconds(Pow2(attempt - 1))) == 0
  {
    if attempt == 56 {
      WrappedProduct(55);
      WrappedDoubling(55, WRAPPED_PRODUCTS[20]);
    } else {
      VanishedProduct(attempt - 1);
      WrappedDoubling(attempt - 1, 0);
    }
  }

  lemma VanishedBackoff(attempt: int)
    requires 56 <= attempt
    ensures RetryBackoff(attempt) == 0
  {
    if attempt <= 63 {
      ShiftFits(attempt - 1);
      VanishedProduct(attempt);
    } else if attempt == 64 {
      ShiftToSign();
    }
  }

  /** The backoff doubles up to five minutes at exactly the attempts named by
      `BackoffExact`; it never exceeds five minutes. */
  lemma BackoffIsDoubling(attempt: int)
    ensures RetryBackoff(attempt) == DoublingBackoff(attempt) <==> BackoffExact(attempt)
    ensures RetryBackoff(attempt) <= MAX_BACKOFF
  {
    if attempt <= 34 {
      SmallBackoff(attempt);
    } else {
      Pow2Monotone(9, attempt - 1);
      Pow2Values();
      assert DoublingBackoff(attempt) == MAX_BACKOFF;
      if attempt <= 55 { WrappedBackoff(attempt); } else { VanishedBackoff(attempt); }
    }
  }
}
