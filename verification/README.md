# Halving epochs of the ordinal numbering

A Dafny model of `src/epoch.rs`, the epoch calculator of the `ord` ordinal
indexer. Ordinals number every unit of the Bitcoin supply in issuance order.
An epoch is a run of 210000 blocks (`Blocks`, Bitcoin's halving interval)
in which the block reward is constant. The reward starts at 50 coins
(5 000 000 000 base units, with `COIN_VALUE` = 100 000 000) and is shifted
right by one bit per epoch. The model covers:

- `Subsidy`: the reward of an epoch, `(50 * COIN_VALUE) >> e`, and 0 once `e >= 64`.
- `StartingOrdinals`: the hard-coded table of the 33 first ordinals of epochs 0 .. 32.
- `StartingOrdinal`: an optional lookup into that table.
- `StartingHeight`: `e * Blocks`.
- `EpochFromHeight`: conversion of a height into an epoch by integer division.
- `EpochFromOrdinal`: conversion of an ordinal into an epoch by binary search over the table. An exact hit gives its own index. Otherwise the result is the insertion point minus one.
- `EqualsIndex`: comparison of an epoch with a raw `u64` index.

Files:

- `numbers.dfy` (module `Numbers`): `u64` as a bounded subset of `int`, `Pow2`, and the logical right shift `ShiftRight`. The shift is written as repeated halving and proved to be the floor of `x / 2^k`. This module also holds `Height`, `Ordinal` and `CoinValue`.
- `wrappers.dfy` (module `Wrappers`): `Option`.
- `search.dfy` (module `Search`): a verified binary search in the shape of Rust's `slice::binary_search`, with a tagged `Found`/`NotFound` result. It also holds `LastAtMost`, the reference answer "greatest index whose entry does not exceed v".
- `epoch.dfy` (module `Epochs`): the epoch module itself. It also proves that the table agrees entry by entry with the recurrence `table[0] = 0`, `table[i+1] = table[i] + Blocks * Subsidy(i)`. The floor rounding from epoch 10 on is proved exactly; for example, `Subsidy(10) = 4882812`. The table is the constant `StartingOrdinals` (src/epoch.rs:7-41) and the halving interval is the constant `Blocks` = 210000 (src/epoch.rs:43); as constants they have no row below, which lists functions, methods and lemmas; `TableFollowsSchedule` states what the table contains.
- `epoch_properties.dfy` (module `EpochProperties`): round trips and brackets between the operations, and the cases the source's unit tests pin.

## Model

| member | source | states |
|---|---|---|
| Numbers.ShiftRight | src/epoch.rs:47 | `x >> k` on a u64 with k < 64 is the floor of x / 2^k: r * 2^k <= x < (r + 1) * 2^k |
| Epochs.Subsidy | src/epoch.rs:45-51 | below the 64-bit guard the reward is floor(5 000 000 000 / 2^e); it never exceeds the initial reward and is positive exactly for epochs 0 .. 32 |
| Epochs.SubsidyHalves | src/epoch.rs:45-51 | each epoch's reward is half the previous one, rounded down, including across the e >= 64 guard |
| Epochs.StartingOrdinal | src/epoch.rs:53-55 | present exactly for epochs below 33; when present it equals the number of units minted in all earlier epochs |
| Epochs.StartingHeight | src/epoch.rs:57-59 | the starting height converts back to the same epoch and is a multiple of Blocks |
| Epochs.EpochFromHeight | src/epoch.rs:77-81 | the epoch e of height h satisfies e * Blocks <= h < (e + 1) * Blocks, without any bound from the table |
| Epochs.EqualsIndex | src/epoch.rs:62-66 | an epoch equals a raw u64 exactly when it is the epoch of that index |
| Epochs.EpochFromOrdinal | src/epoch.rs:68-74 | the result lies in 0 .. 32, its starting ordinal does not exceed the ordinal, and every later table entry exceeds it; it is the reference LastAtMost; the insertion-point-minus-one arm never underflows |
| Search.BinarySearch | src/epoch.rs:70 | on an ascending sequence, Found(i) points at an equal entry; NotFound(i) is the insertion point, with all smaller entries before it and all larger entries from it on |
| Search.LastAtMost | src/epoch.rs:70-72 | the greatest index whose entry does not exceed v, given that the first entry does not |
| Search.LastAtMostCharacterised | src/epoch.rs:70-72 | in a strictly ascending sequence, any index whose entry is at most v while the next entry exceeds v is that greatest index |
| Epochs.ScheduleStart | src/epoch.rs:103-110 | the independent reference for the table: the running sum of Blocks * Subsidy over earlier epochs, never more than i intervals of the initial reward |
| Epochs.TableFollowsSchedule | src/epoch.rs:7-41 | the table has 33 entries, and entry i equals the sum of Blocks * Subsidy(k) over k < i |
| Epochs.TableStrictlyAscending | src/epoch.rs:7-41 | the table is strictly ascending, which is the precondition of the binary search |
| EpochProperties.TableStep | src/epoch.rs:101-114 | consecutive entries differ by Blocks * Subsidy of the earlier epoch |
| EpochProperties.TableGap | src/epoch.rs:7-41 | each tabulated epoch owns at least Blocks ordinals |
| EpochProperties.SubsidyTestVectors | src/epoch.rs:116-122 | rewards 5 000 000 000, 2 500 000 000, 4 882 812 (epoch 10) and 1 (epoch 32), and 0 for every epoch from 33 on |
| EpochProperties.StartingOrdinalTestVectors | src/epoch.rs:87-99 | epoch 0 starts at Some(0); epochs 1 and 2 start after one and two intervals of reward; epoch 33 has None |
| EpochProperties.OrdinalsOfEpoch | src/epoch.rs:68-74 | every ordinal from an epoch's start to just before its start plus Blocks * Subsidy maps to that epoch |
| EpochProperties.OrdinalsPastTable | src/epoch.rs:68-74 | every ordinal at or beyond the last entry maps to epoch 32 |
| EpochProperties.OrdinalRoundTrip | src/epoch.rs:144-150 | a tabulated epoch's starting ordinal and the ordinal after it map back to the epoch; the ordinal before it maps to the previous epoch |
| EpochProperties.LookupTestVectors | src/epoch.rs:145-147 | ordinals 0 and 1 are in epoch 0 |
| EpochProperties.HeightBracket | src/epoch.rs:77-81 | a height lies in [StartingHeight(e), StartingHeight(e) + Blocks) for its own epoch e, and that starting height does not overflow |
| EpochProperties.RewardEndsAtHeight | src/epoch.rs:77-81 | the reward at a height is zero exactly from height 33 * Blocks on |
| EpochProperties.HeightTestVectors | src/epoch.rs:130-142 | starting heights 0, Blocks and 2 * Blocks for epochs 0, 1 and 2; heights 0, Blocks and Blocks + 1 give epochs 0, 1 and 1 |
| EpochProperties.EqualsIndexTestVectors | src/epoch.rs:152-156 | Epoch(0) equals 0 and Epoch(100) equals 100 but not 101 |

TableStep is stated for i in 0 .. 31: the table has 33 entries, as the test at src/epoch.rs:107-113 builds them, so there is no step out of epoch 32.

## Left out

- Epochs.StartingHeight: requires `e * Blocks < 2^64`. The source multiplies unchecked; a debug build panics and a release build wraps. Neither behaviour is modelled.
- Epochs.EpochFromOrdinal: the search inside it is a standard verified binary search. It is not a copy of the midpoint steps of Rust's `slice::binary_search`. The table is strictly ascending, so both searches return the same result.
- The round trips are stated about `Search.LastAtMost`. `EpochFromOrdinal` is a method, and its contract proves that it returns exactly `LastAtMost`.
- The derived `Copy`, `Clone`, `Debug`, `Eq` and `PartialEq` impls carry no behaviour and are not modelled. Equality of `Epoch` values is Dafny's datatype equality.
- `Ordinal`, `Height` and `COIN_VALUE` are defined outside this file. Here they are a `u64`-bounded datatype each and the constant 100 000 000. `Ordinal + 1` in the tests is plain addition.
- Epochs.StartingOrdinal: the `self.0 as usize` cast at src/epoch.rs:54 is taken as the identity, which holds on 64-bit targets. On a 32-bit target the cast truncates, so an epoch of 2^32 or more would look up a small index; that truncation is not modelled, and such epochs give None here.
- The `i as u64` casts in `From<Ordinal>` (src/epoch.rs:71-72) take an index of at most 33, so they are the identity on every target.
