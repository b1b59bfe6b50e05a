/** The hybrid allocator with calls one at a time: sharded slabs for small requests, a block allocator for
    the rest.  A slab is an object; an address in it is the slab and an offset. */
module Hybrid {
  import opened Words
  import opened SlabPacking
  import B = BlockAllocator
  import R = Registry
  import T = Topology

  const SMALL_SHARDS: nat := 8

  datatype Option<T> = None | Some(value: T)

  class SmallArena {
    var off: nat
    /** Bytes returned to callers since the last rewind. */
    ghost var handed: nat

    constructor ()
      ensures off == 0 && handed == 0
    {
      off, handed := 0, 0;
    }

    /** Reserves bytes; the offset moves even when they do not fit.  A request of no bytes succeeds. */
    method Alloc(size: nat) returns (at: Option<nat>)
      requires off + size <= MAX_INT
      modifies this
      ensures off == old(off) + size
      ensures at == if size == 0 then Some(0) else if off <= SLAB_SIZE then Some(old(off)) else None
      ensures handed == if at.Some? then old(handed) + size else old(handed)
    {
      if size == 0 {
        return Some(0);
      }
      off := off + size;
      if off > SLAB_SIZE {
        return None;
      }
      handed := handed + size;
      return Some(off - size);
    }

    method Reset()
      modifies this
      ensures off == 0 && handed == 0
    {
      off, handed := 0, 0;
    }

    /** No request will succeed any more, and nearly all of the slab has been handed out. */
    ghost predicate Spent()
      reads this
    {
      SLAB_SIZE < off && SLAB_SIZE - SMALL_THRESHOLD < handed <= SLAB_SIZE
    }

    /** No request has failed yet. */
    ghost predicate Open()
      reads this
    {
      off == handed <= SLAB_SIZE
    }
  }

  class Shard {
    var small: seq<SmallArena>
    var pool: set<SmallArena>
    ghost var used: seq<nat>
    ghost var slabs: set<SmallArena>
    /** No offset is above it. */
    ghost var high: nat

    ghost predicate Shaped()
      reads this, slabs
    {
      && (forall i :: 0 <= i < |small| ==> small[i] in slabs) && pool <= slabs
      && Queue(small)
      && (forall i :: 0 <= i < |small| ==> small[i] !in pool)
      && |used| == |small|
      && (forall i :: 0 <= i < |small| ==> used[i] == small[i].handed && small[i].off <= high)
    }

    /** Between calls the last slab is open. */
    ghost predicate Valid()
      reads this, slabs
    {
      Shaped() && (small != [] ==> small[|small| - 1].Open())
    }

    constructor ()
      ensures Valid() && used == [] && slabs == {} && high == 0
    {
      small, pool, used, slabs, high := [], {}, [], {}, 0;
    }

    /** No offset overflows if every slab is tried twice. */
    ghost predicate Roomy(size: nat)
      reads this
    {
      high + 2 * size <= MAX_INT
    }

    /** Some slab of the pool, or a new one. */
    method Get() returns (a: SmallArena)
      modifies this`pool
      ensures pool == old(pool) - {a}
      ensures a in old(pool) || fresh(a)
    {
      if pool != {} {
        if * {
          a :| a in pool;
          pool := pool - {a};
          return;
        }
      }
      a := new SmallArena();
    }

    /** Appends a rewound slab to the list; all slabs before it are spent. */
    method NewSlab()
      requires Shaped() && (small != [] ==> small[|small| - 1].Spent())
      modifies this, slabs
      ensures Valid() && used == old(used) + [0]
      ensures small[..|small| - 1] == old(small) && |small| == |old(small)| + 1
      ensures small[|small| - 1] in old(pool) || fresh(small[|small| - 1])
      ensures pool == old(pool) - {small[|small| - 1]} && fresh(slabs - old(slabs))
      ensures small[|small| - 1].off == 0 && high == old(high)
    {
      var a := Get();
      assert forall i :: 0 <= i < |small| ==> small[i] != a;
      a.Reset();
      small := small + [a];
      used := used + [0];
      slabs := slabs + {a};
    }

    /** One pass over the slabs. */
    method TryAll(size: nat) returns (r: Option<Place>)
      requires Shaped() && 0 < size <= SMALL_THRESHOLD && high + size <= MAX_INT
      modifies this`used, this`high, small
      ensures r.Some? <==> small != [] && old(small[|small| - 1].off) + size <= SLAB_SIZE
      ensures Shaped() && (small != [] ==> if r.Some? then small[|small| - 1].Open() else small[|small| - 1].Spent())
      ensures r.Some? ==> (used, r.value) == Pack(old(used), size)
      ensures r.None? ==> used == old(used)
      ensures high == old(high) + size
    {
      var last := |small| - 1;
      var at := Scan(small, size);
      high := high + size;
      used := if at.Some? then used[last := used[last] + size] else used;
      r := if at.Some? then Some(Place(last, at.value, size)) else None;
    }

    /** A new slab, with the request at its start. */
    method StartSlab(size: nat) returns (r: Option<Place>)
      requires Shaped() && (small != [] ==> small[|small| - 1].Spent()) && 0 < size <= SMALL_THRESHOLD && size <= high
      modifies this, slabs
      ensures Valid() && r == Some(Place(|old(used)|, 0, size)) && used == old(used) + [size]
      ensures fresh(slabs - old(slabs)) && high == old(high)
    {
      NewSlab();
      var last := |small| - 1;
      var at := small[last].Alloc(size);
      used := used[last := size];
      r := if at.Some? then Some(Place(last, at.value, size)) else None;
    }

    /** Serves a request from the last slab or from a new one.  Requests of 1 to 4096 bytes never fail. */
    method AllocSmall(size: nat) returns (r: Option<Place>)
      requires Valid() && 0 < size <= SMALL_THRESHOLD && Roomy(size)
      modifies this, slabs
      ensures Valid() && r.Some? && (used, r.value) == Pack(old(used), size)
      ensures fresh(slabs - old(slabs)) && high <= old(high) + 2 * size
    {
      r := TryAll(size);
      if r.Some? {
        return;
      }
      r := Slow(size);
    }

    /** Under the lock: one more pass, which fails if the first did, then a new slab. */
    method Slow(size: nat) returns (r: Option<Place>)
      requires Shaped() && (small != [] ==> small[|small| - 1].Spent()) && 0 < size <= SMALL_THRESHOLD
      requires high + size <= MAX_INT
      modifies this, slabs
      ensures Valid() && r == Some(Place(|old(used)|, 0, size)) && used == old(used) + [size]
      ensures fresh(slabs - old(slabs)) && high == old(high) + size
    {
      r := TryAll(size);
      if r.None? {
        r := StartSlab(size);
      }
    }

    /** Any run of small requests on an empty shard puts each where the packing puts it. */
    method Perform(sizes: seq<nat>) returns (places: seq<Place>)
      requires Valid() && used == [] && high + 2 * Served(sizes) <= MAX_INT
      requires forall i :: 0 <= i < |sizes| ==> 0 < sizes[i] <= SMALL_THRESHOLD
      modifies this, slabs
      ensures Valid() && (used, places) == PackAll(sizes)
      ensures fresh(slabs - old(slabs)) && high <= old(high) + 2 * Served(sizes)
      decreases |sizes|
    {
      if sizes == [] {
        return [];
      }
      var n := |sizes| - 1;
      ServedLast(sizes);
      places := Perform(sizes[..n]);
      var place := AllocSmall(sizes[n]);
      places := places + [place.value];
    }

    /** A request of no bytes: the first slab answers it with a nil address, and an empty shard gets one. */
    method AllocNothing()
      requires Valid()
      modifies this, slabs
      ensures Valid() && used == if old(used) == [] then [0] else old(used)
      ensures fresh(slabs - old(slabs))
    {
      if small == [] {
        NewSlab();
      }
    }

    /** Any small request. */
    method Serve(size: nat) returns (r: Option<Place>)
      requires Valid() && size <= SMALL_THRESHOLD && Roomy(size)
      modifies this, slabs
      ensures Valid() && fresh(slabs - old(slabs))
      ensures 0 < size ==> r.Some? && (used, r.value) == Pack(old(used), size)
      ensures size == 0 ==> r.None? && used == if old(used) == [] then [0] else old(used)
    {
      if size == 0 {
        AllocNothing();
        return None;
      }
      r := AllocSmall(size);
    }

    /** Rewinds all slabs and gives them back to the pool. */
    method Reset()
      requires Valid()
      modifies this, slabs
      ensures Valid() && used == [] && slabs == old(slabs)
    {
      for i := 0 to |small|
        invariant small == old(small) && pool == old(pool) + (set j | 0 <= j < i :: small[j])
        modifies this`pool, small
      {
        small[i].Reset();
        pool := pool + {small[i]};
      }
      small, used := [], [];
    }
  }

  /** Distinct slabs, all spent but perhaps the last. */
  ghost predicate Queue(list: seq<SmallArena>)
    reads list
  {
    && (forall i, j :: 0 <= i < j < |list| ==> list[i] != list[j])
    && (forall i :: 0 <= i < |list| - 1 ==> list[i].Spent())
    && (list != [] ==> list[|list| - 1].Spent() || list[|list| - 1].Open())
  }

  /** Tries every slab in turn.  Only the last one can serve the request; if it cannot, all are spent. */
  method Scan(list: seq<SmallArena>, size: nat) returns (at: Option<nat>)
    requires Queue(list) && 0 < size <= SMALL_THRESHOLD
    requires forall i :: 0 <= i < |list| ==> list[i].off + size <= MAX_INT
    modifies list
    ensures Queue(list)
    ensures at == if list != [] && old(list[|list| - 1].off) + size <= SLAB_SIZE then Some(old(list[|list| - 1].off))
            else None
    ensures forall i :: 0 <= i < |list| ==> list[i].off <= old(list[i].off) + size
    ensures forall i :: 0 <= i < |list| - 1 ==> list[i].handed == old(list[i].handed)
    ensures list != [] ==> list[|list| - 1].handed == old(list[|list| - 1].handed) + if at.Some? then size else 0
    ensures list != [] ==> list[|list| - 1].off == old(list[|list| - 1].off) + size
  {
    for i := 0 to |list|
      invariant forall j :: i <= j < |list| ==> list[j].off == old(list[j].off)
      invariant forall j :: 0 <= j < |list| ==> list[j].handed == old(list[j].handed)
      invariant forall j :: 0 <= j < i ==> list[j].off == old(list[j].off) + size && list[j].Spent()
    {
      at := list[i].Alloc(size);
      if at.Some? {
        return;
      }
    }
    return None;
  }

  datatype Address = Nil | InSlab(shard: nat, place: Place) | InBlock(addr: nat)

  /** Different shards, with no slab in common. */
  ghost predicate Separate(a: Shard, b: Shard)
    reads a, b
  {
    a != b && a.slabs !! b.slabs
  }

  ghost predicate Member(s: Shard, slabs: set<SmallArena>)
    reads s, slabs
  {
    s.slabs <= slabs && s.Valid()
  }

  class Hybrid {
    const large: B.BlockAllocator
    const shards: seq<Shard>
    ghost var slabs: set<SmallArena>

    ghost predicate Valid()
      reads this, large, large.matrix, shards, slabs
    {
      large.Valid() && ShardsValid()
    }

    ghost predicate ShardsValid()
      reads this, shards, slabs
    {
      && |shards| == SMALL_SHARDS
      && (forall i, j :: 0 <= i < j < |shards| ==> Separate(shards[i], shards[j]))
      && (forall i :: 0 <= i < |shards| ==> Member(shards[i], slabs))
    }

    constructor (large: B.BlockAllocator)
      requires large.Valid()
      ensures Valid() && this.large == large
      ensures forall i :: 0 <= i < |shards| ==> shards[i].used == []
    {
      var made: seq<Shard> := [];
      for i := 0 to SMALL_SHARDS
        invariant |made| == i
        invariant forall j :: 0 <= j < i ==> fresh(made[j]) && made[j].Valid()
        invariant forall j :: 0 <= j < i ==> made[j].used == [] && made[j].slabs == {}
        invariant forall j, l :: 0 <= j < l < i ==> made[j] != made[l]
      {
        var s := new Shard();
        made := made + [s];
      }
      this.large, shards, slabs := large, made, {};
    }

    /** Small requests of 1 to 4096 bytes are always served from a slab of the thread's shard, without the
        large allocator; larger ones are the block allocator's. */
    method Alloc(size: nat, mask: Mask, thread: nat, chunk: nat) returns (r: Result<Address>, bucket: nat)
      requires Valid() && size < WORD && thread < WORD && chunk < WORD
      requires size <= SMALL_THRESHOLD ==> shards[thread % SMALL_SHARDS].Roomy(size)
      requires size > SMALL_THRESHOLD ==> R.Roomy(large.reg)
      modifies this, large, shards, slabs
      ensures Valid()
      ensures var k := thread % 8; var before := old(shards[k].used);
              && (0 < size <= 4096 ==>
                    shards[k].used == Pack(before, size).0 && r == Ok(InSlab(k, Pack(before, size).1)) && bucket == 0)
              && (size == 0 ==> shards[k].used == (if before == [] then [0] else before) && r == Ok(Nil) && bucket == 0)
              && (4096 < size ==> shards[k].used == before)
      ensures forall i :: 0 <= i < |shards| && i != thread % 8 ==> shards[i].used == old(shards[i].used)
      ensures size <= 4096 ==> large.reg == old(large.reg)
      ensures 4096 < size ==>
                var (reg, a) := R.Alloc(large.c, old(large.reg), size, mask);
                && large.reg == reg && r == (if a.Ok? then Ok(InBlock(a.value)) else Err(a.error))
                && bucket == if a.Ok? then T.Bucket(large.scale, large.k, thread, chunk) else 0
    {
      if size <= SMALL_THRESHOLD {
        var place := AllocSmall(size, thread % SMALL_SHARDS);
        return Ok(place), 0;
      }
      var a;
      a, bucket := large.Alloc(size, mask, thread, chunk);
      r := if a.Ok? then Ok(InBlock(a.value)) else Err(a.error);
    }

    method AllocSmall(size: nat, k: nat) returns (r: Address)
      requires ShardsValid() && k < SMALL_SHARDS && size <= SMALL_THRESHOLD && shards[k].Roomy(size)
      modifies this, shards[k], shards[k].slabs
      ensures ShardsValid()
      ensures 0 < size ==> shards[k].used == Pack(old(shards[k].used), size).0
      ensures 0 < size ==> r == InSlab(k, Pack(old(shards[k].used), size).1)
      ensures size == 0 ==> r == Nil && shards[k].used == if old(shards[k].used) == [] then [0] else old(shards[k].used)
    {
      var s := shards[k];
      ghost var before := slabs;
      assert Member(s, slabs);
      assert forall i :: 0 <= i < |shards| && i != k ==> Separate(shards[i], s);
      var place := s.Serve(size);
      r := if place.Some? then InSlab(k, place.value) else Nil;
      forall i | 0 <= i < |shards| && i != k
        ensures Member(shards[i], before) && Separate(shards[i], s) && Separate(s, shards[i])
      {
        assert old(Member(shards[i], slabs)) && old(Separate(shards[i], s));
      }
      slabs := slabs + s.slabs;
    }

    /** Rewinds every slab of every shard and the large allocator. */
    method Reset() returns (r: Result<()>)
      requires Valid()
      modifies this, large, shards, slabs
      ensures Valid() && forall i :: 0 <= i < |shards| ==> shards[i].used == []
      ensures (large.reg, r) == R.Reset(large.c, old(large.reg))
    {
      for k := 0 to |shards|
        invariant ShardsValid() && slabs == old(slabs)
        invariant forall i :: 0 <= i < k ==> shards[i].used == []
        modifies shards, slabs
      {
        ResetShard(k);
      }
      r := large.Reset();
    }

    method ResetShard(k: nat)
      requires ShardsValid() && k < |shards|
      modifies shards[k], shards[k].slabs
      ensures ShardsValid() && shards[k].used == []
    {
      var s := shards[k];
      assert Member(s, slabs);
      assert forall i :: 0 <= i < |shards| && i != k ==> Separate(shards[i], s);
      s.Reset();
      assert forall i :: 0 <= i < |shards| && i != k ==> Member(shards[i], slabs) && Separate(shards[i], s);
    }
  }
}
