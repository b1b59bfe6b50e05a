/** How one shard packs requests into slabs when calls come one at a time.

    A shard is described by the number of bytes handed out of each of its slabs, in list order.
 */
module SlabPacking {
  const SLAB_SIZE: nat := 65536
  const SMALL_THRESHOLD: nat := 4096

  /** Where a request goes: `size` bytes from `at` in slab number `slab`. */
  datatype Place = Place(slab: nat, at: nat, size: nat)

  /** Only the last slab is ever tried with success; a request that does not fit starts a new slab. */
  function Pack(used: seq<nat>, size: nat): (seq<nat>, Place) {
    if used != [] && used[|used| - 1] + size <= SLAB_SIZE then
      var last := |used| - 1;
      (used[last := used[last] + size], Place(last, used[last], size))
    else (used + [size], Place(|used|, 0, size))
  }

  function Served(used: seq<nat>): nat {
    if used == [] then 0 else used[0] + Served(used[1..])
  }

  /** Every slab but the last has handed out more than 61440 bytes, and none more than it has. */
  ghost predicate Packed(used: seq<nat>) {
    && (forall i :: 0 <= i < |used| ==> used[i] <= SLAB_SIZE)
    && (forall i :: 0 <= i < |used| - 1 ==> SLAB_SIZE - SMALL_THRESHOLD < used[i])
  }

  lemma {:induction false} ServedSplit(a: seq<nat>, b: seq<nat>)
    ensures Served(a + b) == Served(a) + Served(b)
  {
    if a == [] {
      assert a + b == b;
    } else {
      ServedSplit(a[1..], b);
      assert (a + b)[1..] == a[1..] + b;
    }
  }

  lemma {:induction false} ServedLast(sizes: seq<nat>)
    requires sizes != []
    ensures Served(sizes) == Served(sizes[..|sizes| - 1]) + sizes[|sizes| - 1]
  {
    var n := |sizes| - 1;
    assert sizes == sizes[..n] + [sizes[n]];
    ServedSplit(sizes[..n], [sizes[n]]);
  }

  /** A request of up to 4096 bytes is served in full, and keeps the packing. */
  lemma {:induction false} PackKeeps(used: seq<nat>, size: nat)
    requires Packed(used) && size <= SMALL_THRESHOLD
    ensures Packed(Pack(used, size).0)
    ensures Served(Pack(used, size).0) == Served(used) + size
  {
    var (after, p) := Pack(used, size);
    if used != [] && used[|used| - 1] + size <= SLAB_SIZE {
      var n := |used| - 1;
      assert used == used[..n] + [used[n]] && after == used[..n] + [used[n] + size];
      ServedSplit(used[..n], [used[n]]);
      ServedSplit(used[..n], [used[n] + size]);
    } else {
      ServedSplit(used, [size]);
    }
  }

  function PackAll(sizes: seq<nat>): (seq<nat>, seq<Place>)
    decreases |sizes|
  {
    if sizes == [] then ([], [])
    else
      var n := |sizes| - 1;
      var (used, places) := PackAll(sizes[..n]);
      var (after, p) := Pack(used, sizes[n]);
      (after, places + [p])
  }

  /** A place lies inside one slab, below what has been handed out of it. */
  ghost predicate Inside(used: seq<nat>, p: Place) {
    p.slab < |used| && p.at + p.size <= used[p.slab] <= SLAB_SIZE
  }

  ghost predicate DisjointPlaces(places: seq<Place>) {
    forall i, j :: 0 <= i < j < |places| && places[i].slab == places[j].slab
      ==> places[i].at + places[i].size <= places[j].at
  }

  /** The places answer the requests, inside the slabs and without overlap. */
  ghost predicate Answers(used: seq<nat>, places: seq<Place>, sizes: seq<nat>) {
    && |places| == |sizes|
    && (forall i :: 0 <= i < |places| ==> Inside(used, places[i]) && places[i].size == sizes[i])
    && DisjointPlaces(places)
  }

  lemma {:induction false} AnswersStep(used: seq<nat>, places: seq<Place>, sizes: seq<nat>, size: nat)
    requires Answers(used, places, sizes) && size <= SMALL_THRESHOLD
    ensures Answers(Pack(used, size).0, places + [Pack(used, size).1], sizes + [size])
  {
    var (after, p) := Pack(used, size);
    assert Inside(after, p);
    forall i | 0 <= i < |places|
      ensures Inside(after, places[i]) && (places[i].slab == p.slab ==> places[i].at + places[i].size <= p.at)
    {
      assert Inside(used, places[i]);
    }
  }

  /** Over any run of small requests: nothing overlaps, nothing is lost, and every slab but the last is
      nearly full. */
  lemma {:induction false} PackAllKeeps(sizes: seq<nat>)
    requires forall i :: 0 <= i < |sizes| ==> sizes[i] <= SMALL_THRESHOLD
    ensures var (used, places) := PackAll(sizes);
            Packed(used) && Served(used) == Served(sizes) && Answers(used, places, sizes)
    decreases |sizes|
  {
    if sizes != [] {
      var n := |sizes| - 1;
      PackAllKeeps(sizes[..n]);
      var (used, places) := PackAll(sizes[..n]);
      PackKeeps(used, sizes[n]);
      AnswersStep(used, places, sizes[..n], sizes[n]);
      assert sizes == sizes[..n] + [sizes[n]];
      ServedSplit(sizes[..n], [sizes[n]]);
    }
  }

  lemma {:induction false} ServedAtLeast(used: seq<nat>)
    requires Packed(used) && used != []
    ensures (|used| - 1) * (SLAB_SIZE - SMALL_THRESHOLD) <= Served(used)
    ensures 2 <= |used| ==> (|used| - 1) * (SLAB_SIZE - SMALL_THRESHOLD) < Served(used)
  {
    if 2 <= |used| {
      ServedAtLeast(used[1..]);
    }
  }

  /** A run that needed `k` slabs, two or more, has asked for more than (k - 1) * 61440 bytes. */
  lemma {:induction false} SlabsAreEarned(sizes: seq<nat>)
    requires forall i :: 0 <= i < |sizes| ==> sizes[i] <= SMALL_THRESHOLD
    requires 2 <= |PackAll(sizes).0|
    ensures (|PackAll(sizes).0| - 1) * 61440 < Served(sizes)
  {
    PackAllKeeps(sizes);
    ServedAtLeast(PackAll(sizes).0);
  }
}
