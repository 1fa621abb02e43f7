/**
 Properties of the epoch calculator that relate several of its operations:
 the table against the subsidy recurrence, the ordinal lookup against the
 table, and the height conversions against each other.
 */
module EpochProperties {
  import opened Numbers
  import opened Wrappers
  import opened Search
  import opened Epochs

  /** The rewards the halving schedule is pinned by: 50 coins, 25 coins, one unit in epoch 32, nothing after. */
  lemma SubsidyTestVectors()
    ensures Subsidy(Epoch(0)) == 5000000000
    ensures Subsidy(Epoch(1)) == 2500000000
    ensures Subsidy(Epoch(10)) == 4882812
    ensures Subsidy(Epoch(32)) == 1
    ensures forall n: U64 :: n >= 33 ==> Subsidy(Epoch(n)) == 0
  {
    Pow2Values();
    assert Pow2(10) == 1024;
  }

  /** Consecutive table entries differ by one halving interval's worth of that epoch's subsidy. */
  lemma TableStep(i: nat)
    requires i + 1 < TabulatedEpochs
    ensures StartingOrdinals[i + 1] == StartingOrdinals[i] + Blocks * Subsidy(Epoch(i))
  {
    TableFollowsSchedule();
  }

  /** Each tabulated epoch owns at least one halving interval of ordinals. */
  lemma TableGap(i: nat)
    requires i + 1 < TabulatedEpochs
    ensures StartingOrdinals[i] + Blocks <= StartingOrdinals[i + 1]
  {
    TableStep(i);
    MultiplyMonotone(1, Subsidy(Epoch(i)), Blocks);
  }

  /**
   Every ordinal from an epoch's start up to, but excluding, its start plus
   `Blocks * Subsidy` is classified into that epoch.
   */
  lemma OrdinalsOfEpoch(e: nat, v: nat)
    requires e + 1 < TabulatedEpochs
    requires StartingOrdinals[e] <= v < StartingOrdinals[e] + Blocks * Subsidy(Epoch(e))
    ensures LastAtMost(StartingOrdinals, v) == e
  {
    TableStep(e);
    TableStrictlyAscending();
    LastAtMostCharacterised(StartingOrdinals, v, e);
  }

  /** Ordinals at or beyond the last table entry all belong to epoch 32. */
  lemma OrdinalsPastTable(v: nat)
    requires StartingOrdinals[TabulatedEpochs - 1] <= v
    ensures LastAtMost(StartingOrdinals, v) == TabulatedEpochs - 1
  {
    TableStrictlyAscending();
    LastAtMostCharacterised(StartingOrdinals, v, TabulatedEpochs - 1);
  }

  /**
   Round trip: the starting ordinal of a tabulated epoch, and the ordinal
   after it, map back to that epoch; the ordinal just before it maps to the
   previous epoch.
   */
  lemma OrdinalRoundTrip(e: Epoch)
    requires e.n < TabulatedEpochs
    ensures StartingOrdinal(e).Some?
    ensures LastAtMost(StartingOrdinals, StartingOrdinal(e).value.n) == e.n
    ensures LastAtMost(StartingOrdinals, StartingOrdinal(e).value.n + 1) == e.n
    ensures e.n > 0 ==> LastAtMost(StartingOrdinals, StartingOrdinal(e).value.n - 1) == e.n - 1
  {
    var s := StartingOrdinals[e.n];
    TableStrictlyAscending();
    if e.n + 1 < TabulatedEpochs {
      TableGap(e.n);
    }
    LastAtMostCharacterised(StartingOrdinals, s, e.n);
    LastAtMostCharacterised(StartingOrdinals, s + 1, e.n);
    if e.n > 0 {
      TableGap(e.n - 1);
      LastAtMostCharacterised(StartingOrdinals, s - 1, e.n - 1);
    }
  }

  /**
   The starting-ordinal cases the lookup is pinned by: epoch 0 starts at 0,
   epochs 1 and 2 start after one and two intervals of reward, and epoch 33
   has no starting ordinal at all, which is different from starting at 0.
   */
  lemma StartingOrdinalTestVectors()
    ensures StartingOrdinal(Epoch(0)) == Some(Ordinal(0))
    ensures StartingOrdinal(Epoch(1)) == Some(Ordinal(Subsidy(Epoch(0)) * Blocks))
    ensures StartingOrdinal(Epoch(2)) == Some(Ordinal((Subsidy(Epoch(0)) + Subsidy(Epoch(1))) * Blocks))
    ensures StartingOrdinal(Epoch(33)) == None
  {
    TableStep(0);
    TableStep(1);
  }

  /** The ordinal lookup cases the source pins: ordinals 0 and 1 are in epoch 0. */
  lemma LookupTestVectors()
    ensures LastAtMost(StartingOrdinals, 0) == 0
    ensures LastAtMost(StartingOrdinals, 1) == 0
  {
    OrdinalsOfEpoch(0, 0);
    OrdinalsOfEpoch(0, 1);
  }

  /** A height lies in the interval that starts at its epoch's starting height and is `Blocks` long. */
  lemma HeightBracket(h: Height)
    ensures EpochFromHeight(h).n * Blocks < U64Limit
    ensures StartingHeight(EpochFromHeight(h)).n <= h.n < StartingHeight(EpochFromHeight(h)).n + Blocks
  {
  }

  /** The block reward at a height is zero exactly from height 33 * Blocks on. */
  lemma RewardEndsAtHeight(h: Height)
    ensures Subsidy(EpochFromHeight(h)) == 0 <==> h.n >= TabulatedEpochs * Blocks
  {
    var e := EpochFromHeight(h);
    if e.n < TabulatedEpochs {
      MultiplyMonotone(e.n + 1, TabulatedEpochs, Blocks);
    } else {
      MultiplyMonotone(TabulatedEpochs, e.n, Blocks);
    }
  }

  /** The height conversions the source pins. */
  lemma HeightTestVectors()
    ensures StartingHeight(Epoch(0)) == Height(0)
    ensures StartingHeight(Epoch(1)) == Height(Blocks)
    ensures StartingHeight(Epoch(2)) == Height(Blocks * 2)
    ensures EpochFromHeight(Height(0)) == Epoch(0)
    ensures EpochFromHeight(Height(Blocks)) == Epoch(1)
    ensures EpochFromHeight(Height(Blocks + 1)) == Epoch(1)
  {
  }

  /** Comparison with a raw index holds for equal indices and fails for different ones. */
  lemma EqualsIndexTestVectors()
    ensures EqualsIndex(Epoch(0), 0)
    ensures EqualsIndex(Epoch(100), 100)
    ensures !EqualsIndex(Epoch(100), 101)
  {
  }
}
