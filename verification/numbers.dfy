/**
 The numeric vocabulary the epoch calculator is written in: unsigned 64-bit
 integers, the logical right shift on them, and the two externally defined
 scalar newtypes `Height` and `Ordinal`, together with the coin scale.
 */
module Numbers {

  /** 2^64: every value of a Rust `u64` lies below it. */
  const U64Limit: nat := 0x1_0000_0000_0000_0000

  /** The values of a Rust `u64`. */
  type U64 = x: int | 0 <= x < U64Limit

  /** Smallest monetary units per whole coin (`COIN_VALUE`, defined outside the epoch module). */
  const CoinValue: U64 := 100_000_000

  /** A block height, counted from the genesis block 0. */
  datatype Height = Height(n: U64)

  /** The absolute index of a single minted unit in the global issuance sequence. */
  datatype Ordinal = Ordinal(n: U64)

  /** 2 raised to the power k. */
  function Pow2(k: nat): (r: nat)
    ensures r >= 1
  {
    if k == 0 then 1 else 2 * Pow2(k - 1)
  }

  /** Powers of two grow with the exponent. */
  lemma {:induction false} Pow2Monotone(i: nat, j: nat)
    requires i <= j
    ensures Pow2(i) <= Pow2(j)
  {
    if i < j {
      Pow2Monotone(i, j - 1);
    }
  }

  /** Exponents add when powers of two multiply. */
  lemma {:induction false} Pow2Add(i: nat, j: nat)
    ensures Pow2(i + j) == Pow2(i) * Pow2(j)
  {
    if j > 0 {
      Pow2Add(i, j - 1);
      assert Pow2(i + j) == 2 * Pow2(i + (j - 1));
    }
  }

  /** The two powers of two that bracket 5 * 10^9, the initial block reward. */
  lemma Pow2Values()
    ensures Pow2(32) == 4294967296
    ensures Pow2(33) == 8589934592
  {
    assert Pow2(4) == 16;
    Pow2Add(4, 4);
    Pow2Add(8, 8);
    Pow2Add(16, 16);
  }

  /**
   Logical right shift `x >> k` of a `u64`. A shift by 64 or more is an
   arithmetic overflow in Rust, so it is not defined here; a shift by one
   position drops the lowest bit, i.e. halves and rounds down.
   The contract pins the result as the floor of x / 2^k.
   */
  function ShiftRight(x: U64, k: nat): (r: U64)
    requires k < 64
    ensures r * Pow2(k) <= x < (r + 1) * Pow2(k)
  {
    if k == 0 then x
    else
      var q := ShiftRight(x, k - 1);
      HalvingStep(x, q, Pow2(k - 1));
      q / 2
  }

  /** One halving step: if q = floor(x / p) then q / 2 = floor(x / 2p). */
  lemma HalvingStep(x: nat, q: nat, p: nat)
    requires p >= 1
    requires q * p <= x < (q + 1) * p
    ensures (q / 2) * (2 * p) <= x < (q / 2 + 1) * (2 * p)
  {
    var h := q / 2;
    assert q == 2 * h || q == 2 * h + 1;
    assert h * (2 * p) == (2 * h) * p;
    assert (h + 1) * (2 * p) == (2 * h + 2) * p;
    MultiplyMonotone(2 * h, q, p);
    MultiplyMonotone(q + 1, 2 * h + 2, p);
  }

  /** Multiplying by a natural number preserves order. */
  lemma MultiplyMonotone(a: nat, b: nat, p: nat)
    requires a <= b
    ensures a * p <= b * p
  {
  }
}
