/**
 Halving epochs of the ordinal numbering scheme. An epoch is a run of
 `Blocks` consecutive block heights during which the block reward (the
 subsidy) is constant; the reward starts at 50 coins and is shifted right
 by one bit at every epoch boundary, as in Bitcoin's issuance schedule.
 Ordinals number the minted units in issuance order, so each epoch also
 owns a contiguous range of ordinals, which begins at the epoch's entry in
 `StartingOrdinals`.
 */
module Epochs {
  import opened Numbers
  import opened Wrappers
  import opened Search

  /** A halving period, identified by its index from 0. */
  datatype Epoch = Epoch(n: U64)

  /** The halving interval in blocks. */
  const Blocks: U64 := 210000

  /** The reward of every block in epoch 0: 50 coins in base units. */
  const InitialSubsidy: U64 := 50 * CoinValue

  /**
   The first ordinal of each epoch, hard-coded. Entry i is the number of
   units minted in epochs 0 .. i-1. After epoch 32 the reward is zero, so no
   further epoch owns any ordinals and the table stops.
   */
  const StartingOrdinals: seq<U64> := [
    0,
    1050000000000000,
    1575000000000000,
    1837500000000000,
    1968750000000000,
    2034375000000000,
    2067187500000000,
    2083593750000000,
    2091796875000000,
    2095898437500000,
    2097949218750000,
    2098974609270000,
    2099487304530000,
    2099743652160000,
    2099871825870000,
    2099935912620000,
    2099967955890000,
    2099983977420000,
    2099991988080000,
    2099995993410000,
    2099997995970000,
    2099998997250000,
    2099999497890000,
    2099999748210000,
    2099999873370000,
    2099999935950000,
    2099999967240000,
    2099999982780000,
    2099999990550000,
    2099999994330000,
    2099999996220000,
    2099999997060000,
    2099999997480000
  ]

  /** The number of epochs that have a starting ordinal. */
  const TabulatedEpochs: nat := 33

  /**
   The per-block reward of an epoch: the initial subsidy shifted right once
   per epoch, and zero once the shift would reach the width of a u64.
   Below the guard the reward is the floor of InitialSubsidy / 2^e; it never
   exceeds the initial one, and is positive in exactly the 33 epochs 0 .. 32.
   */
  function Subsidy(e: Epoch): (r: U64)
    ensures e.n < 64 ==> r * Pow2(e.n) <= InitialSubsidy < (r + 1) * Pow2(e.n)
    ensures r <= InitialSubsidy
    ensures 0 < r <==> e.n < TabulatedEpochs
  {
    if e.n < 64 then
      var s := ShiftRight(InitialSubsidy, e.n);
      SubsidyPositiveBelow33(e.n, s);
      s
    else
      0
  }

  /** floor(InitialSubsidy / 2^k) is positive exactly when k <= 32, because 2^32 <= 5 * 10^9 < 2^33. */
  lemma SubsidyPositiveBelow33(k: nat, s: nat)
    requires s * Pow2(k) <= InitialSubsidy < (s + 1) * Pow2(k)
    ensures s <= InitialSubsidy
    ensures 0 < s <==> k < TabulatedEpochs
  {
    var p := Pow2(k);
    MultiplyMonotone(1, p, s);
    assert s <= s * p;
    if k < TabulatedEpochs {
      Pow2Monotone(k, 32);
      Pow2Values();
      assert p <= InitialSubsidy;
    } else {
      Pow2Monotone(33, k);
      Pow2Values();
      assert InitialSubsidy < p;
      if s > 0 {
        MultiplyMonotone(1, s, p);
      }
    }
  }

  /** Each epoch's reward is half the previous one, rounded down, including past the 64-bit guard. */
  lemma SubsidyHalves(k: nat)
    requires k + 1 < U64Limit
    ensures Subsidy(Epoch(k + 1)) == Subsidy(Epoch(k)) / 2
  {
    if k + 1 == 64 {
      assert Subsidy(Epoch(k)) == 0;
    }
  }

  /**
   The independent reference for the table: the total number of units
   minted before epoch i, summing `Blocks * Subsidy` over epochs 0 .. i-1.
   */
  function ScheduleStart(i: nat): (r: nat)
    requires i < U64Limit
    ensures r <= i * (Blocks * InitialSubsidy)
  {
    if i == 0 then 0 else ScheduleStart(i - 1) + Blocks * Subsidy(Epoch(i - 1))
  }

  /**
   The starting ordinal of an epoch, absent (not zero) past the table. When
   present it is exactly the number of units minted in all earlier epochs.
   */
  function StartingOrdinal(e: Epoch): (r: Option<Ordinal>)
    ensures r.Some? <==> e.n < TabulatedEpochs
    ensures r.Some? ==> r.value.n == ScheduleStart(e.n)
  {
    if e.n < |StartingOrdinals| then
      TableFollowsSchedule();
      Some(Ordinal(StartingOrdinals[e.n]))
    else
      None
  }

  /**
   The first height of an epoch. The product must fit in a u64; the source
   does not guard against overflow here. The height falls back into the
   same epoch and is a whole number of halving intervals.
   */
  function StartingHeight(e: Epoch): (r: Height)
    requires e.n * Blocks < U64Limit
    ensures EpochFromHeight(r) == e
    ensures r.n % Blocks == 0
  {
    Height(e.n * Blocks)
  }

  /**
   The epoch a block height falls in. Not bounded by the table: heights
   from 33 * Blocks on give epochs whose reward is zero. The height lies in
   the half-open interval of the epoch, whose start is representable.
   */
  function EpochFromHeight(h: Height): (e: Epoch)
    ensures e.n * Blocks <= h.n < (e.n + 1) * Blocks
  {
    Epoch(h.n / Blocks)
  }

  /** Comparison of an epoch with a raw u64 index (`PartialEq<u64>`). */
  function EqualsIndex(e: Epoch, other: U64): (b: bool)
    ensures b <==> e == Epoch(other)
  {
    e.n == other
  }

  /**
   The epoch an ordinal falls in: binary search for the ordinal in the
   table; an exact hit is its own epoch, otherwise the insertion point minus
   one. The insertion point is never 0, because the table starts at 0, so
   the subtraction cannot underflow. The result is the last epoch whose
   starting ordinal does not exceed the ordinal, and ordinals past the last
   entry land in epoch 32.
   */
  method EpochFromOrdinal(o: Ordinal) returns (e: Epoch)
    ensures e.n < TabulatedEpochs
    ensures StartingOrdinals[e.n] <= o.n
    ensures forall j :: e.n < j < TabulatedEpochs ==> o.n < StartingOrdinals[j]
    ensures e.n == LastAtMost(StartingOrdinals, o.n)
  {
    TableStrictlyAscending();
    var r := BinarySearch(StartingOrdinals, o.n);
    match r {
      case Found(i) =>
        e := Epoch(i);
      case NotFound(i) =>
        assert StartingOrdinals[0] <= o.n;
        e := Epoch(i - 1);
    }
    LastAtMostCharacterised(StartingOrdinals, o.n, e.n);
  }

  /** The schedule's subsidy and starting ordinal for epochs 0 .. 8. */
  lemma ScheduleEpochs0To8()
    ensures Subsidy(Epoch(0)) == 5000000000 && ScheduleStart(0) == 0
    ensures Subsidy(Epoch(1)) == 2500000000 && ScheduleStart(1) == 1050000000000000
    ensures Subsidy(Epoch(2)) == 1250000000 && ScheduleStart(2) == 1575000000000000
    ensures Subsidy(Epoch(3)) == 625000000 && ScheduleStart(3) == 1837500000000000
    ensures Subsidy(Epoch(4)) == 312500000 && ScheduleStart(4) == 1968750000000000
    ensures Subsidy(Epoch(5)) == 156250000 && ScheduleStart(5) == 2034375000000000
    ensures Subsidy(Epoch(6)) == 78125000 && ScheduleStart(6) == 2067187500000000
    ensures Subsidy(Epoch(7)) == 39062500 && ScheduleStart(7) == 2083593750000000
    ensures Subsidy(Epoch(8)) == 19531250 && ScheduleStart(8) == 2091796875000000
  {
    ScheduleStep(0);
    ScheduleStep(1);
    ScheduleStep(2);
    ScheduleStep(3);
    ScheduleStep(4);
    ScheduleStep(5);
    ScheduleStep(6);
    ScheduleStep(7);
  }

  /** The schedule's subsidy and starting ordinal for epochs 8 .. 16. */
  lemma ScheduleEpochs8To16()
    ensures Subsidy(Epoch(8)) == 19531250 && ScheduleStart(8) == 2091796875000000
    ensures Subsidy(Epoch(9)) == 9765625 && ScheduleStart(9) == 2095898437500000
    ensures Subsidy(Epoch(10)) == 4882812 && ScheduleStart(10) == 2097949218750000
    ensures Subsidy(Epoch(11)) == 2441406 && ScheduleStart(11) == 2098974609270000
    ensures Subsidy(Epoch(12)) == 1220703 && ScheduleStart(12) == 2099487304530000
    ensures Subsidy(Epoch(13)) == 610351 && ScheduleStart(13) == 2099743652160000
    ensures Subsidy(Epoch(14)) == 305175 && ScheduleStart(14) == 2099871825870000
    ensures Subsidy(Epoch(15)) == 152587 && ScheduleStart(15) == 2099935912620000
    ensures Subsidy(Epoch(16)) == 76293 && ScheduleStart(16) == 2099967955890000
  {
    ScheduleEpochs0To8();
    ScheduleStep(8);
    ScheduleStep(9);
    ScheduleStep(10);
    ScheduleStep(11);
    ScheduleStep(12);
    ScheduleStep(13);
    ScheduleStep(14);
    ScheduleStep(15);
  }

  /** The schedule's subsidy and starting ordinal for epochs 16 .. 24. */
  lemma ScheduleEpochs16To24()
    ensures Subsidy(Epoch(16)) == 76293 && ScheduleStart(16) == 2099967955890000
    ensures Subsidy(Epoch(17)) == 38146 && ScheduleStart(17) == 2099983977420000
    ensures Subsidy(Epoch(18)) == 19073 && ScheduleStart(18) == 2099991988080000
    ensures Subsidy(Epoch(19)) == 9536 && ScheduleStart(19) == 2099995993410000
    ensures Subsidy(Epoch(20)) == 4768 && ScheduleStart(20) == 2099997995970000
    ensures Subsidy(Epoch(21)) == 2384 && ScheduleStart(21) == 2099998997250000
    ensures Subsidy(Epoch(22)) == 1192 && ScheduleStart(22) == 2099999497890000
    ensures Subsidy(Epoch(23)) == 596 && ScheduleStart(23) == 2099999748210000
    ensures Subsidy(Epoch(24)) == 298 && ScheduleStart(24) == 2099999873370000
  {
    ScheduleEpochs8To16();
    ScheduleStep(16);
    ScheduleStep(17);
    ScheduleStep(18);
    ScheduleStep(19);
    ScheduleStep(20);
    ScheduleStep(21);
    ScheduleStep(22);
    ScheduleStep(23);
  }

  /** The schedule's subsidy and starting ordinal for epochs 24 .. 32. */
  lemma ScheduleEpochs24To32()
    ensures Subsidy(Epoch(24)) == 298 && ScheduleStart(24) == 2099999873370000
    ensures Subsidy(Epoch(25)) == 149 && ScheduleStart(25) == 2099999935950000
    ensures Subsidy(Epoch(26)) == 74 && ScheduleStart(26) == 2099999967240000
    ensures Subsidy(Epoch(27)) == 37 && ScheduleStart(27) == 2099999982780000
    ensures Subsidy(Epoch(28)) == 18 && ScheduleStart(28) == 2099999990550000
    ensures Subsidy(Epoch(29)) == 9 && ScheduleStart(29) == 2099999994330000
    ensures Subsidy(Epoch(30)) == 4 && ScheduleStart(30) == 2099999996220000
    ensures Subsidy(Epoch(31)) == 2 && ScheduleStart(31) == 2099999997060000
    ensures Subsidy(Epoch(32)) == 1 && ScheduleStart(32) == 2099999997480000
  {
    ScheduleEpochs16To24();
    ScheduleStep(24);
    ScheduleStep(25);
    ScheduleStep(26);
    ScheduleStep(27);
    ScheduleStep(28);
    ScheduleStep(29);
    ScheduleStep(30);
    ScheduleStep(31);
  }

  /** The table has 33 entries and agrees entry by entry with the subsidy schedule. */
  lemma TableFollowsSchedule()
    ensures |StartingOrdinals| == TabulatedEpochs
    ensures forall i :: 0 <= i < TabulatedEpochs ==> StartingOrdinals[i] == ScheduleStart(i)
  {
    ScheduleEpochs0To8();
    ScheduleEpochs8To16();
    ScheduleEpochs16To24();
    ScheduleEpochs24To32();
  }

  /**
   One epoch of the schedule: the start of epoch k + 1 adds one interval's
   worth of epoch k's subsidy, and the next subsidy is half of it, rounded down.
   */
  lemma ScheduleStep(k: nat)
    requires k + 1 < 64
    ensures ScheduleStart(k + 1) == ScheduleStart(k) + Blocks * Subsidy(Epoch(k))
    ensures Subsidy(Epoch(k + 1)) == Subsidy(Epoch(k)) / 2
  {
    SubsidyHalves(k);
  }

  /** The table is strictly ascending, since every subsidy up to epoch 32 is positive. */
  lemma TableStrictlyAscending()
    ensures StrictlyAscending(StartingOrdinals)
  {
  }
}
