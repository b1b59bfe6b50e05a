/** The block allocator run by one thread at a time, with its pointer structures.

    The metadata region is raw memory: `nodes` and `slots` map the raw address of a record to the
    record.  Reset only rewinds the counters, so both maps keep stale records; a new record is always
    written beyond every record that can still be reached.  With one thread a compare-and-swap right
    after the load of the same word cannot fail, so the retry loops run once and are written straight.
 */
module BlockAllocator {
  import opened Words
  import opened Layout
  import opened SearchTree
  import opened BlockTree
  import opened FreeStack
  import opened Topology
  import opened Polynomials
  import R = Registry

  /** The chain of slots is exactly the stack of extents. */
  ghost predicate Stacks(slots: Slots, chain: seq<Ptr>, free: seq<R.Extent>) {
    && |chain| == |free|
    && forall i :: 0 <= i < |chain| ==>
         chain[i] in slots && free[i].addr < WORD && free[i] == R.Extent(slots[chain[i]].addr, slots[chain[i]].size)
  }

  datatype ListView = ListView(chain: seq<Ptr>, free: seq<R.Extent>)

  /** What the links below `head` mean: distinct slots, and the extents they hold. */
  ghost function Lists(slots: Slots, head: Ptr): iset<ListView> {
    iset v: ListView | Chain(slots, head, v.chain) && Distinct(v.chain) && Stacks(slots, v.chain, v.free)
  }

  lemma {:induction false} ListPush(slots: Slots, head: Ptr, chain: seq<Ptr>, free: seq<R.Extent>, p: Ptr)
    requires ListView(chain, free) in Lists(slots, head) && p in slots && slots[p].addr < WORD && p != NIL
             && p !in chain
    ensures ListView([p] + chain, [R.Extent(slots[p].addr, slots[p].size)] + free)
            in Lists(slots[p := slots[p].(next := head)], p)
  {
    var after := slots[p := slots[p].(next := head)];
    ChainFrame(slots, after, head, chain);
    assert ([p] + chain)[1..] == chain;
  }

  lemma {:induction false} ListPop(slots: Slots, head: Ptr, chain: seq<Ptr>, free: seq<R.Extent>)
    requires ListView(chain, free) in Lists(slots, head)
    ensures head == NIL ==> free == []
    ensures head != NIL ==>
              && chain != [] && chain[0] == head && free != [] && head in slots && head !in chain[1..]
              && free[0] == R.Extent(slots[head].addr, slots[head].size) && free[0].addr < WORD
              && ListView(chain[1..], free[1..]) in Lists(slots, slots[head].next)
  {
  }

  lemma {:induction false} ListFrame(a: Slots, b: Slots, head: Ptr, chain: seq<Ptr>, free: seq<R.Extent>)
    requires ListView(chain, free) in Lists(a, head)
    requires forall p :: p in chain && p in a ==> p in b && a[p] == b[p]
    ensures ListView(chain, free) in Lists(b, head)
  {
    ChainIn(a, head, chain);
    ChainFrame(a, b, head, chain);
  }

  /** Metadata records of the tree and of the free list do not overlap and end by `top`. */
  ghost predicate RecordsApart(nodes: set<Ptr>, slots: seq<Ptr>, top: nat) {
    && (forall p :: p in nodes ==> p + NODE_BYTES <= top)
    && (forall p :: p in slots ==> p + SLOT_BYTES <= top)
    && (forall p, q :: p in nodes && q in nodes && p < q ==> p + NODE_BYTES <= q)
    && (forall p, q :: p in slots && q in slots && p < q ==> p + SLOT_BYTES <= q)
    && (forall p, q :: p in nodes && q in slots ==> p + NODE_BYTES <= q || q + SLOT_BYTES <= p)
  }

  lemma {:induction false} ApartNode(nodes: set<Ptr>, slots: seq<Ptr>, n: Ptr, top: nat)
    requires RecordsApart(nodes, slots, n) && n + NODE_BYTES <= top
    ensures RecordsApart(nodes + {n}, slots, top) && RecordsApart(nodes, slots, top) && n !in nodes
  {
  }

  lemma {:induction false} LinkKeeps(nodes: Nodes, root: Ptr, t: Shape, blocks: map<nat, R.Entry>, c: Ptr, n: Ptr,
      chain: seq<Ptr>, top: nat)
    requires n in nodes && CanLink(root, nodes, t, nodes[n].addr, c, n) && TreeView(t, blocks) in Trees(nodes, root)
    requires RecordsApart(Ptrs(t), chain, n) && n + NODE_BYTES <= top
    ensures var grown := Grow(nodes, t, nodes[n].addr, n);
            && RecordsApart(Ptrs(grown), chain, top)
            && TreeView(grown, Joined(blocks, nodes[n])) in Trees(SetChild(nodes, c, nodes[n].addr, n), root)
  {
    ApartNode(Ptrs(t), chain, n, top);
    DescribesGrow(nodes, root, t, blocks, c, n);
  }

  lemma {:induction false} ApartSlot(nodes: set<Ptr>, slots: seq<Ptr>, p: Ptr, top: nat)
    requires RecordsApart(nodes, slots, p) && p + SLOT_BYTES <= top
    ensures RecordsApart(nodes, [p] + slots, top) && RecordsApart(nodes, slots, top) && p !in slots
  {
  }

  /** Recording a block when the counter does not wrap. */
  lemma {:induction false} RecordIs(c: Config, r: R.Registry, addr: nat, size: nat, mask: Mask)
    requires R.Roomy(r)
    ensures var meta := r.meta + NODE_BYTES;
            var n := Node(addr, size, NormalizeMask(mask), NIL, NIL);
            R.Record(c, r, addr, size, mask)
            == if meta > c.nodeEnd then (r.(meta := meta), Err(ErrOutOfMemory))
               else (r.(meta := meta, blocks := Joined(r.blocks, n), active := (r.active + 1) % WORD), Ok(addr))
  {
    assert (r.meta + NODE_BYTES) % WORD == r.meta + NODE_BYTES;
  }

  /** Nil roots mean the empty structures, whatever records memory still holds. */
  lemma {:induction false} Emptied(nodes: Nodes, slots: Slots, top: nat)
    ensures TreeView(Leaf, map[]) in Trees(nodes, NIL)
    ensures ListView([], []) in Lists(slots, NIL)
    ensures RecordsApart(Ptrs(Leaf), [], top)
  {
    assert forall a :: !HasKey(nodes, Leaf, a);
  }

  class BlockAllocator {
    const c: Config
    const scale: nat
    ghost const k: nat
    const matrix: array2<nat>

    var root: Ptr
    var nodes: Nodes
    var head: Ptr
    var slots: Slots
    var bump: nat
    var nodeBump: nat
    var active: nat
    var closed: bool

    ghost var shape: Shape
    ghost var chain: seq<Ptr>
    ghost var reg: R.Registry

    ghost predicate Valid()
      reads this, matrix
    {
      && c.WellFormed() && k <= 62 && scale == Pow2(k)
      && MatrixValid()
      && c.nodeBase <= nodeBump < WORD && bump < WORD
      && reg == R.Registry(bump, nodeBump, reg.blocks, reg.free, active, closed)
      && TreeValid()
      && ListValid()
      && RecordsApart(Ptrs(shape), chain, nodeBump)
    }

    ghost predicate MatrixValid()
      reads matrix
    {
      && matrix.Length0 == scale && matrix.Length1 == scale
      && forall r, col :: 0 <= r < scale && 0 <= col < scale ==> matrix[r, col] == Entry(scale, r, col)
    }

    ghost predicate TreeValid()
      reads this
    {
      TreeView(shape, reg.blocks) in Trees(nodes, root)
    }

    ghost predicate ListValid()
      reads this
    {
      ListView(chain, reg.free) in Lists(slots, head)
    }

    constructor (layout: Config, scale: nat, ghost k: nat, matrix: array2<nat>)
      requires layout.WellFormed() && k <= 62 && scale == Pow2(k)
      requires matrix.Length0 == scale && matrix.Length1 == scale
      requires forall r, col :: 0 <= r < scale && 0 <= col < scale ==> matrix[r, col] == Entry(scale, r, col)
      ensures Valid() && reg == R.Fresh(layout)
      ensures c == layout && this.scale == scale && this.k == k && this.matrix == matrix
    {
      c, this.scale, this.k, this.matrix := layout, scale, k, matrix;
      root, nodes, head, slots := NIL, map[], NIL, map[];
      bump, nodeBump, active, closed := layout.payloadBase, layout.nodeBase, 0, false;
      shape, chain, reg := Leaf, [], R.Fresh(layout);
      new;
      Emptied(nodes, slots, nodeBump);
    }

    /** The record that holds `addr`, or nil exactly when there is none. */
    method FindNode(addr: nat) returns (p: Ptr)
      requires Valid() && addr < WORD
      ensures p != NIL ==> p in Ptrs(shape) && p in nodes && nodes[p].addr == addr && addr in reg.blocks
                           && reg.blocks[addr] == R.Entry(nodes[p].size, nodes[p].mask)
      ensures p == NIL ==> addr !in reg.blocks
    {
      p := root;
      ghost var sub, lo: int, hi: int := shape, -1, WORD;
      while p != NIL
        invariant Rep(nodes, p, sub, lo, hi) && lo < addr < hi
        invariant Ptrs(sub) <= Ptrs(shape)
        invariant HasKey(nodes, shape, addr) ==> HasKey(nodes, sub, addr)
        decreases sub
      {
        if addr == nodes[p].addr {
          return;
        }
        KeyBelow(nodes, p, sub, lo, hi, addr);
        if addr < nodes[p].addr {
          sub, lo, hi := sub.left, lo, nodes[p].addr;
          p := nodes[p].left;
        } else {
          sub, lo, hi := sub.right, nodes[p].addr, hi;
          p := nodes[p].right;
        }
      }
    }

    /** A record above every linked record, not linked itself. */
    ghost predicate Unlinked(n: Ptr)
      reads this
    {
      && n in nodes && c.nodeBase <= n && n + NODE_BYTES <= nodeBump
      && nodes[n].addr < WORD && nodes[n].left == NIL && nodes[n].right == NIL
      && RecordsApart(Ptrs(shape), chain, n)
    }

    method NewNode(addr: nat, size: nat, mask: Mask) returns (r: Result<Ptr>)
      requires Valid() && R.Roomy(reg) && addr < WORD
      modifies this`nodes, this`nodeBump, this`reg
      ensures Valid() && reg == old(reg).(meta := old(nodeBump) + NODE_BYTES)
      ensures r.Err? <==> old(nodeBump) + NODE_BYTES > c.nodeEnd
      ensures r.Err? ==> r.error == ErrOutOfMemory
      ensures r.Ok? ==> Unlinked(r.value) && nodes[r.value] == Node(addr, size, NormalizeMask(mask), NIL, NIL)
    {
      var raw := nodeBump;
      nodeBump := nodeBump + NODE_BYTES;
      reg := reg.(meta := nodeBump);
      if raw + NODE_BYTES > c.nodeEnd {
        return Err(ErrOutOfMemory);
      }
      ghost var before := nodes;
      ApartNode(Ptrs(shape), chain, raw, nodeBump);
      nodes := nodes[raw := Node(addr, size, NormalizeMask(mask), NIL, NIL)];
      DescribesFrame(before, nodes, root, shape, reg.blocks);
      return Ok(raw);
    }

    method NewFreeSlot(addr: nat, size: nat) returns (r: Result<Ptr>)
      requires Valid() && R.Roomy(reg) && addr < WORD
      modifies this`slots, this`nodeBump, this`reg
      ensures Valid() && reg == old(reg).(meta := old(nodeBump) + SLOT_BYTES)
      ensures r.Err? <==> old(nodeBump) + SLOT_BYTES > c.nodeEnd
      ensures r.Err? ==> r.error == ErrOutOfMemory
      ensures r.Ok? ==> r.value in slots && r.value != NIL && r.value + SLOT_BYTES <= nodeBump
                        && RecordsApart(Ptrs(shape), chain, r.value) && slots[r.value] == Slot(addr, size, NIL)
    {
      var raw := nodeBump;
      nodeBump := nodeBump + SLOT_BYTES;
      reg := reg.(meta := nodeBump);
      if raw + SLOT_BYTES > c.nodeEnd {
        return Err(ErrOutOfMemory);
      }
      ghost var before := slots;
      ApartSlot(Ptrs(shape), chain, raw, nodeBump);
      slots := slots[raw := Slot(addr, size, NIL)];
      ListFrame(before, slots, head, chain, reg.free);
      return Ok(raw);
    }

    /** Hangs an unlinked record in the tree, or adds its owners to the record that already holds its address. */
    method InsertNode(n: Ptr)
      requires Valid() && Unlinked(n)
      modifies this`root, this`nodes, this`shape, this`reg
      ensures Valid() && reg == old(reg).(blocks := Joined(old(reg.blocks), old(nodes[n])))
    {
      if root == NIL {
        DescribesPlant(nodes, shape, reg.blocks, n);
        reg := reg.(blocks := Joined(reg.blocks, nodes[n]));
        ApartNode(Ptrs(shape), chain, n, nodeBump);
        assert Ptrs(shape) + {n} == {n} == Ptrs(Branch(Leaf, n, Leaf));
        root, shape := n, Branch(Leaf, n, Leaf);
      } else {
        InsertBelow(n);
      }
    }

    method InsertBelow(n: Ptr)
      requires Valid() && Unlinked(n) && root != NIL
      modifies this`nodes, this`shape, this`reg
      ensures Valid() && reg == old(reg).(blocks := Joined(old(reg.blocks), old(nodes[n])))
    {
      var key := nodes[n].addr;
      var current := root;
      ghost var sub, lo: int, hi: int := shape, -1, WORD;
      while true
        invariant Valid() && Unlinked(n)
        invariant nodes == old(nodes) && shape == old(shape) && reg == old(reg)
        invariant current != NIL && OnPath(nodes, shape, key, current)
        invariant Rep(nodes, current, sub, lo, hi)
        decreases sub
      {
        OnPathIn(nodes, shape, key, current);
        if key == nodes[current].addr {
          EntryOf(nodes, root, shape, reg.blocks, current);
          Store(current, nodes[n].size, nodes[current].mask + nodes[n].mask);
          return;
        }
        var next := Child(nodes[current], key);
        if next == NIL {
          LinkKeeps(nodes, root, shape, reg.blocks, current, n, chain, nodeBump);
          Link(current, n);
          return;
        }
        OnPathStep(nodes, root, shape, -1, WORD, key, current);
        if key < nodes[current].addr {
          sub, hi := sub.left, nodes[current].addr;
        } else {
          sub, lo := sub.right, nodes[current].addr;
        }
        current := next;
      }
    }

    /** Stores the size and the owners of a linked record. */
    method Store(p: Ptr, size: nat, mask: Mask)
      requires Valid() && p in Ptrs(shape) && p in nodes
      modifies this`nodes, this`reg
      ensures Valid() && nodes == old(nodes)[p := old(nodes[p]).(size := size, mask := mask)]
      ensures reg == old(reg).(blocks := old(reg.blocks)[old(nodes[p]).addr := R.Entry(size, mask)])
    {
      DescribesUpdate(nodes, root, shape, reg.blocks, p, size, mask);
      reg := reg.(blocks := reg.blocks[nodes[p].addr := R.Entry(size, mask)]);
      nodes := nodes[p := nodes[p].(size := size, mask := mask)];
    }

    /** Sets the nil link of `current` on the side of the new record's address. */
    method Link(current: Ptr, n: Ptr)
      requires Valid() && n in nodes && current in nodes
      requires var k := nodes[n].addr;
               && RecordsApart(Ptrs(Grow(nodes, shape, k, n)), chain, nodeBump)
               && TreeView(Grow(nodes, shape, k, n), Joined(reg.blocks, nodes[n]))
                  in Trees(SetChild(nodes, current, k, n), root)
      modifies this`nodes, this`shape, this`reg
      ensures Valid() && reg == old(reg).(blocks := Joined(old(reg.blocks), old(nodes[n])))
    {
      reg := reg.(blocks := Joined(reg.blocks, nodes[n]));
      shape := Grow(nodes, shape, nodes[n].addr, n);
      nodes := SetChild(nodes, current, nodes[n].addr, n);
    }

    /** Takes owners off a linked record and returns those that are left. */
    method ClearOwner(p: Ptr, layers: Mask) returns (remaining: Mask)
      requires Valid() && p in Ptrs(shape) && p in nodes
      modifies this`nodes, this`reg
      ensures Valid() && remaining == old(nodes[p]).mask - layers
      ensures reg == old(reg).(blocks := old(reg.blocks)[old(nodes[p]).addr := R.Entry(old(nodes[p]).size, remaining)])
      ensures nodes == old(nodes)[p := old(nodes[p]).(mask := remaining)]
    {
      remaining := nodes[p].mask - layers;
      Store(p, nodes[p].size, remaining);
    }

    method PushFree(p: Ptr)
      requires Valid() && p in slots && slots[p].addr < WORD && p != NIL && p !in chain
               && RecordsApart(Ptrs(shape), [p] + chain, nodeBump)
      modifies this`slots, this`head, this`chain, this`reg
      ensures Valid() && head == p && chain == [p] + old(chain)
      ensures slots == old(slots)[p := old(slots[p]).(next := old(head))]
      ensures reg == old(reg).(free := [R.Extent(old(slots[p]).addr, old(slots[p]).size)] + old(reg.free))
    {
      ListPush(slots, head, chain, reg.free, p);
      slots := slots[p := slots[p].(next := head)];
      head, chain := p, [p] + chain;
      reg := reg.(free := [R.Extent(slots[p].addr, slots[p].size)] + reg.free);
    }

    /** Takes the top extent if it is large enough.  A head that is too small goes back on top, and the
        list and its records are then exactly what they were. */
    method PopFree(size: nat) returns (addr: nat, slotSize: nat, ok: bool)
      requires Valid()
      modifies this`slots, this`head, this`chain, this`reg
      ensures Valid()
      ensures ok <==> old(reg.free) != [] && old(reg.free)[0].size >= size
      ensures ok ==> R.Extent(addr, slotSize) == old(reg.free)[0] && reg == old(reg).(free := old(reg.free)[1..])
      ensures !ok ==> addr == 0 && slotSize == 0 && reg == old(reg)
                      && slots == old(slots) && head == old(head) && chain == old(chain)
    {
      ListPop(slots, head, chain, reg.free);
      if head == NIL {
        return 0, 0, false;
      }
      var top := head;
      head := slots[top].next;
      chain := chain[1..];
      reg := reg.(free := reg.free[1..]);
      assert forall q :: q in chain ==> q in old(chain);
      if slots[top].size >= size {
        return slots[top].addr, slots[top].size, true;
      }
      assert [top] + chain == old(chain);
      PushFree(top);
      assert slots == old(slots);
      assert reg.free == old(reg.free);
      return 0, 0, false;
    }

    method Bucket(thread: nat, chunk: nat) returns (bucket: nat)
      requires Valid() && thread < WORD && chunk < WORD
      ensures bucket < scale && bucket == Topology.Bucket(scale, k, thread, chunk)
      ensures var p := if scale <= 8 then 0x11B else if scale <= 16 then 0x1002D else 0x40000007;
              scale < 0x1_0000_0000 ==>
                Residue(bucket, Clmul(Low((thread % scale + chunk % scale) % scale + 1, k), Xor(thread, chunk)), k, p)
    {
      bucket := BucketFor(matrix, scale, thread, chunk, k);
    }

    method Alloc(size: nat, mask: Mask, thread: nat, chunk: nat) returns (r: Result<nat>, bucket: nat)
      requires Valid() && R.Roomy(reg) && size < WORD && thread < WORD && chunk < WORD
      modifies this
      ensures Valid() && (reg, r) == R.Alloc(c, old(reg), size, mask)
      ensures bucket == if r.Ok? then Topology.Bucket(scale, k, thread, chunk) else 0
    {
      if size == 0 {
        return Err(ErrInvalidSize), 0;
      }
      if closed {
        return Err(ErrClosed), 0;
      }
      bucket := Bucket(thread, chunk);
      r := Take(AlignUp(size, 8), mask);
      if r.Err? {
        bucket := 0;
      }
    }

    method Take(want: nat, mask: Mask) returns (r: Result<nat>)
      requires Valid() && R.Roomy(reg)
      modifies this
      ensures Valid() && (reg, r) == R.Take(c, old(reg), want, mask)
    {
      var addr, slotSize, ok := PopFree(want);
      if ok {
        r := Install(addr, slotSize, mask);
        return;
      }
      addr := AddBump(want);
      if bump > c.payloadEnd {
        return Err(ErrOutOfMemory);
      }
      r := Install(addr, want, mask);
    }

    /** Advances the payload counter, which wraps, and returns what it was. */
    method AddBump(want: nat) returns (addr: nat)
      requires Valid()
      modifies this`bump, this`reg
      ensures Valid() && addr == old(bump) && reg == old(reg).(bump := (old(bump) + want) % WORD)
    {
      addr := bump;
      bump := (bump + want) % WORD;
      reg := reg.(bump := bump);
    }

    /** The common tail of the two ways to get a block: record it in the tree and count it. */
    method Install(addr: nat, size: nat, mask: Mask) returns (r: Result<nat>)
      requires Valid() && R.Roomy(reg) && addr < WORD
      modifies this
      ensures Valid() && (reg, r) == R.Record(c, old(reg), addr, size, mask)
    {
      RecordIs(c, reg, addr, size, mask);
      var node := NewNode(addr, size, mask);
      if node.Err? {
        return Err(node.error);
      }
      InsertNode(node.value);
      active := (active + 1) % WORD;
      reg := reg.(active := active);
      return Ok(addr);
    }

    method Share(addr: nat, mask: Mask) returns (r: Result<()>)
      requires Valid() && !closed && addr < WORD
      modifies this
      ensures Valid() && (reg, r) == R.Share(old(reg), addr, mask)
      ensures r == if addr in old(reg).blocks then Ok(()) else Err(ErrNotFound)
    {
      var p := FindNode(addr);
      if p == NIL {
        return Err(ErrNotFound);
      }
      Store(p, nodes[p].size, nodes[p].mask + NormalizeMask(mask));
      return Ok(());
    }

    method FreeVarying(addr: nat, layers: Mask) returns (r: Result<bool>)
      requires Valid() && R.Roomy(reg) && !closed && addr < WORD
      modifies this
      ensures Valid() && (reg, r) == R.Free(c, old(reg), addr, layers)
      ensures r == Err(ErrNotFound) <==> addr !in old(reg).blocks
      ensures r == Ok(false) <==> addr in old(reg).blocks && old(reg).blocks[addr].mask - layers != {}
    {
      var p := FindNode(addr);
      if p == NIL {
        return Err(ErrNotFound);
      }
      var remaining := ClearOwner(p, layers);
      if remaining != {} {
        return Ok(false);
      }
      r := Reclaim(nodes[p].addr, nodes[p].size);
    }

    method Reclaim(addr: nat, size: nat) returns (r: Result<bool>)
      requires Valid() && R.Roomy(reg) && addr < WORD
      modifies this
      ensures Valid() && (reg, r) == R.Reclaim(c, old(reg), addr, size)
    {
      var slot := NewFreeSlot(addr, size);
      if slot.Err? {
        return Err(slot.error);
      }
      ApartSlot(Ptrs(shape), chain, slot.value, nodeBump);
      PushFree(slot.value);
      active := (active + WORD - 1) % WORD;
      reg := reg.(active := active);
      return Ok(true);
    }

    /** Rewinds the counters and drops the roots.  The records stay behind in memory. */
    method Reset() returns (r: Result<()>)
      requires Valid()
      modifies this`root, this`head, this`bump, this`nodeBump, this`active, this`shape, this`chain, this`reg
      ensures Valid() && (reg, r) == R.Reset(c, old(reg))
    {
      if closed {
        return Err(ErrClosed);
      }
      root, head, bump, nodeBump, active := NIL, NIL, c.payloadBase, c.nodeBase, 0;
      shape, chain, reg := Leaf, [], R.Fresh(c);
      Emptied(nodes, slots, nodeBump);
      return Ok(());
    }

    /** Closes the allocator; only the first call has an effect. */
    method Close()
      requires Valid()
      modifies this`closed, this`reg
      ensures Valid() && reg == old(reg).(closed := true)
    {
      closed := true;
      reg := reg.(closed := true);
    }

    /** Any sequence of calls gives exactly the outcomes of the registry. */
    method Perform(ops: seq<R.Op>) returns (outcomes: seq<R.Outcome>)
      requires Valid() && !closed && R.RoomyRun(c, scale, k, reg, ops)
      modifies this
      ensures Valid() && (reg, outcomes) == R.Run(c, scale, k, old(reg), ops)
    {
      outcomes := [];
      ghost var rest := R.Run(c, scale, k, reg, ops);
      assert ops[0..] == ops && [] + rest.1 == rest.1;
      for i := 0 to |ops|
        invariant Valid() && !closed
        invariant R.RoomyRun(c, scale, k, reg, ops[i..])
        invariant rest == R.Run(c, scale, k, reg, ops[i..])
        invariant R.Run(c, scale, k, old(reg), ops) == (rest.0, outcomes + rest.1)
      {
        assert ops[i..][0] == ops[i] && ops[i..][1..] == ops[i + 1..];
        ghost var was := rest;
        var outcome := Call(ops[i]);
        rest := R.Run(c, scale, k, reg, ops[i + 1..]);
        assert was == (rest.0, [outcome] + rest.1);
        assert outcomes + ([outcome] + rest.1) == (outcomes + [outcome]) + rest.1;
        outcomes := outcomes + [outcome];
      }
      assert ops[|ops|..] == [] && outcomes + [] == outcomes;
    }

    method Call(op: R.Op) returns (outcome: R.Outcome)
      requires Valid() && !closed && R.Roomy(reg) && R.WordArgs(op)
      modifies this
      ensures Valid() && !closed && (reg, outcome) == R.Step(c, scale, k, old(reg), op)
    {
      match op
      case OpAlloc(size, mask, thread, chunk) =>
        var a, bucket := Alloc(size, mask, thread, chunk);
        return if a.Ok? then R.Allocated(a.value, bucket) else R.Failed(a.error);
      case OpShare(addr, mask) =>
        var a := Share(addr, mask);
        return if a.Ok? then R.Shared else R.Failed(a.error);
      case OpFree(addr, layers) =>
        var a := FreeVarying(addr, layers);
        return if a.Ok? then R.Freed(a.value) else R.Failed(a.error);
      case OpReset =>
        var a := Reset();
        return R.Done;
    }
  }

  /** After Reset a used allocator answers every sequence of calls exactly as a fresh one at the same base,
      although its memory is still full of stale records. */
  method ReplayAfterReset(used: BlockAllocator, unused: BlockAllocator, ops: seq<R.Op>)
      returns (replayed: seq<R.Outcome>, expected: seq<R.Outcome>)
    requires used != unused && used.Valid() && unused.Valid() && !used.closed
    requires used.c == unused.c && used.scale == unused.scale && used.k == unused.k && unused.reg == R.Fresh(unused.c)
    requires R.RoomyRun(unused.c, unused.scale, unused.k, unused.reg, ops)
    modifies used, unused
    ensures replayed == expected == R.Run(used.c, used.scale, used.k, R.Fresh(used.c), ops).1
    ensures used.Valid() && unused.Valid() && used.reg == unused.reg
  {
    var done := used.Reset();
    replayed := used.Perform(ops);
    expected := unused.Perform(ops);
  }
}
