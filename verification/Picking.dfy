/** `_pick`: choosing items by linear probing from a seeded home slot. */
module Picking {
  import opened Wrappers

  const STRIDE: nat := 31

  function Slot(seed: nat, i: nat, offset: nat, len: nat): (slot: nat)
    requires len > 0
    ensures slot < len
  {
    (seed + i * STRIDE + offset) % len
  }

  /** Probing with offsets 0, 1, ..., len - 1 reaches every slot. */
  lemma ProbesReach(home: nat, len: nat, slot: nat) returns (offset: nat)
    requires slot < len
    ensures offset < len && (home + offset) % len == slot
  {
    var q, r := home / len, home % len;
    assert home == len * q + r;
    if slot >= r {
      offset := slot - r;
      Remainder(home + offset, len, q, slot);
    } else {
      offset := slot + len - r;
      assert len * (q + 1) == len * q + len;
      Remainder(home + offset, len, q + 1, slot);
    }
  }

  lemma Remainder(x: int, len: int, q: int, r: int)
    requires 0 <= r < len && x == len * q + r
    ensures x % len == r
  {
    assert x == len * (x / len) + x % len;
    assert len * (x / len - q) == len * (x / len) - len * q;
    AtLeastOnce(len, x / len - q);
  }

  lemma AtLeastOnce(len: int, d: int)
    requires len > 0
    ensures d >= 1 ==> len * d >= len
    ensures d <= -1 ==> len * d <= -len
  {
    assert len * d == len * (d - 1) + len && len * d == len * (d + 1) - len;
  }

  function Below(len: nat): set<nat> {
    if len == 0 then {} else Below(len - 1) + {len - 1}
  }

  lemma {:induction false} BelowIs(len: nat)
    ensures |Below(len)| == len && forall k: nat :: k in Below(len) <==> k < len
  {
    if len > 0 { BelowIs(len - 1); }
  }

  /** Fewer used slots than slots: some slot is free. */
  lemma FreeSlot(used: set<nat>, len: nat) returns (slot: nat)
    requires |used| < len
    ensures slot < len && slot !in used
  {
    BelowIs(len);
    if Below(len) <= used { SubsetSize(Below(len), used); }
    slot :| slot in Below(len) && slot !in used;
  }

  ghost predicate AllUsed(seed: nat, i: nat, used: set<nat>, len: nat, offset: nat)
    requires len > 0
  {
    forall o: nat :: o < offset ==> Slot(seed, i, o, len) in used
  }

  /** The first free slot at or after the home slot of draw `i`, or the home slot again when all are used. */
  ghost predicate Probed(seed: nat, i: nat, used: set<nat>, len: nat, idx: nat)
    requires len > 0
  {
    exists offset: nat :: idx == Slot(seed, i, offset, len) && AllUsed(seed, i, used, len, offset)
                          && offset <= len && (idx in used ==> offset == len)
  }

  method Probe(seed: nat, i: nat, used: set<nat>, len: nat) returns (idx: nat)
    requires len > 0
    ensures idx < len && Probed(seed, i, used, len, idx)
  {
    idx := Slot(seed, i, 0, len);
    var offset := 0;
    while idx in used && offset < len
      invariant offset <= len && idx == Slot(seed, i, offset, len)
      invariant AllUsed(seed, i, used, len, offset)
    {
      offset := offset + 1;
      idx := Slot(seed, i, offset, len);
    }
  }

  /** While some slot is unused the probe ends at a free one. */
  lemma ProbedIsFree(seed: nat, i: nat, used: set<nat>, len: nat, idx: nat)
    requires len > 0 && |used| < len && Probed(seed, i, used, len, idx)
    ensures idx !in used
  {
    var free := FreeSlot(used, len);
    var o := ProbesReach(seed + i * STRIDE, len, free);
    assert Slot(seed, i, o, len) == free;
  }

  // ----- picking -----

  function Used(indices: seq<nat>): set<nat> {
    set k | k in indices
  }

  /** Each index is what probing gives after the earlier ones. */
  ghost predicate Drawn(seed: nat, indices: seq<nat>, len: nat)
    requires len > 0
  {
    indices == [] ||
    (var n := |indices| - 1;
     Drawn(seed, indices[..n], len) && Probed(seed, n, Used(indices[..n]), len, indices[n]))
  }

  method Pick<T>(seed: nat, items: seq<T>, n: nat) returns (chosen: seq<T>, indices: seq<nat>)
    requires n > 0 ==> items != []
    ensures |chosen| == |indices| == n
    ensures forall i :: 0 <= i < n ==> indices[i] < |items| && chosen[i] == items[indices[i]]
    ensures n > 0 ==> Drawn(seed, indices, |items|)
  {
    chosen, indices := [], [];
    for i := 0 to n
      invariant |chosen| == |indices| == i
      invariant forall k :: 0 <= k < i ==> indices[k] < |items| && chosen[k] == items[indices[k]]
      invariant n > 0 ==> Drawn(seed, indices, |items|)
    {
      var idx := Probe(seed, i, Used(indices), |items|);
      assert (indices + [idx])[..i] == indices;
      chosen := chosen + [items[idx]];
      indices := indices + [idx];
    }
  }

  lemma NewIndex(indices: seq<nat>, idx: nat)
    requires idx !in Used(indices)
    ensures |Used(indices + [idx])| == |Used(indices)| + 1
    ensures forall i :: 0 <= i < |indices| ==> (indices + [idx])[i] != idx
  {
    assert Used(indices + [idx]) == Used(indices) + {idx};
    assert forall i :: 0 <= i < |indices| ==> indices[i] in Used(indices);
  }

  /** For every seed and non-empty list: as long as no more items are asked for than there are, the chosen indices are
      pairwise distinct. */
  lemma {:induction false} PicksAreDistinct(seed: nat, indices: seq<nat>, len: nat)
    requires len > 0 && Drawn(seed, indices, len) && |indices| <= len
    ensures |Used(indices)| == |indices|
    ensures forall i, j :: 0 <= i < j < |indices| ==> indices[i] != indices[j]
    decreases |indices|
  {
    if indices != [] {
      var n := |indices| - 1;
      PicksAreDistinct(seed, indices[..n], len);
      ProbedIsFree(seed, n, Used(indices[..n]), len, indices[n]);
      NewIndex(indices[..n], indices[n]);
      assert indices == indices[..n] + [indices[n]];
    }
  }

  /** The slot `o` places after the home slot of draw `k` is among these. */
  predicate TakenAt(seed: nat, k: nat, o: nat, len: nat, earlier: seq<nat>)
    requires len > 0
  {
    (seed + 31 * k + o) % len in earlier
  }

  /** Draw `k` takes its own slot, 31 further on than the one before, unless an earlier draw has it; then it takes the
      first slot after it that is free. */
  ghost predicate FirstFree(seed: nat, k: nat, len: nat, earlier: seq<nat>, idx: nat, offset: nat)
    requires len > 0
  {
    && offset < len && idx == (seed + 31 * k + offset) % len && idx !in earlier
    && forall o: nat :: o < offset ==> TakenAt(seed, k, o, len, earlier)
  }

  lemma {:induction false} DrawnAt(seed: nat, indices: seq<nat>, len: nat, k: nat) returns (offset: nat)
    requires len > 0 && Drawn(seed, indices, len) && |indices| <= len && k < |indices|
    ensures FirstFree(seed, k, len, indices[..k], indices[k], offset)
    decreases |indices|
  {
    var n := |indices| - 1;
    if k < n {
      offset := DrawnAt(seed, indices[..n], len, k);
      assert indices[..n][..k] == indices[..k];
    } else {
      PicksAreDistinct(seed, indices[..n], len);
      offset := LastDrawn(seed, n, indices[..n], len, indices[n]);
    }
  }

  lemma LastDrawn(seed: nat, k: nat, earlier: seq<nat>, len: nat, idx: nat) returns (offset: nat)
    requires len > 0 && |Used(earlier)| < len && Probed(seed, k, Used(earlier), len, idx)
    ensures FirstFree(seed, k, len, earlier, idx, offset)
  {
    ProbedIsFree(seed, k, Used(earlier), len, idx);
    offset :| idx == Slot(seed, k, offset, len) && AllUsed(seed, k, Used(earlier), len, offset)
              && offset <= len && (idx in Used(earlier) ==> offset == len);
    var free := FreeSlot(Used(earlier), len);
    var o := ProbesReach(seed + k * STRIDE, len, free);
    assert Slot(seed, k, o, len) == free;
    forall o: nat | o < offset ensures TakenAt(seed, k, o, len, earlier) {
      assert Slot(seed, k, o, len) in Used(earlier);
    }
  }
}
