/** The owner-mask registry with calls one at a time: a tree of owner masks beside a map of pinned blocks.

    Memory comes from the runtime, so an allocation is given the address that the runtime chose; all that
    is asked of it is that the address is not one the arena holds.
 */
module Arena {
  import opened Words
  import opened SearchTree
  import opened BlockTree
  import opened Topology
  import P = Polynomials
  import R = Registry

  /** Owners join an address.  The size is that of the first insertion: a match only joins masks. */
  function With(entries: map<nat, R.Entry>, addr: nat, size: nat, mask: Mask): map<nat, R.Entry> {
    if addr in entries then entries[addr := entries[addr].(mask := entries[addr].mask + NormalizeMask(mask))]
    else entries[addr := R.Entry(size, NormalizeMask(mask))]
  }

  /** The tree, with its records on the runtime's heap: `next` is an address no record has. */
  class MemTree {
    var root: Ptr
    var nodes: Nodes
    var next: Ptr
    ghost var shape: Shape
    ghost var entries: map<nat, R.Entry>

    ghost predicate Valid()
      reads this
    {
      && TreeView(shape, entries) in Trees(nodes, root)
      && 0 < next && forall p :: p in nodes ==> p < next
    }

    constructor ()
      ensures Valid() && entries == map[]
    {
      root, nodes, next := NIL, map[], 1;
      shape, entries := Leaf, map[];
      new;
      assert forall a :: !HasKey(nodes, shape, a);
    }

    /** The record that holds `addr`, or nil exactly when there is none. */
    method Find(addr: nat) returns (p: Ptr)
      requires Valid() && addr < WORD
      ensures p != NIL ==> p in Ptrs(shape) && p in nodes && nodes[p].addr == addr
      ensures p != NIL <==> addr in entries
    {
      p := root;
      ghost var sub, lo: int, hi: int := shape, -1, WORD;
      while p != NIL
        invariant Rep(nodes, p, sub, lo, hi) && lo < addr < hi && Ptrs(sub) <= Ptrs(shape)
        invariant HasKey(nodes, shape, addr) ==> HasKey(nodes, sub, addr)
        decreases sub
      {
        if addr == nodes[p].addr {
          return;
        }
        KeyBelow(nodes, p, sub, lo, hi, addr);
        if addr < nodes[p].addr {
          sub, lo, hi := sub.left, lo, nodes[p].addr;
          p := nodes[p].left;
        } else {
          sub, lo, hi := sub.right, nodes[p].addr, hi;
          p := nodes[p].right;
        }
      }
    }

    /** Adds owners to an address. */
    method Insert(addr: nat, size: nat, mask: Mask)
      requires Valid() && addr < WORD
      modifies this
      ensures Valid() && entries == With(old(entries), addr, size, mask)
    {
      var n := NewNode(addr, size, mask);
      if root == NIL {
        DescribesPlant(nodes, shape, entries, n);
        assert {} + nodes[n].mask == nodes[n].mask;
        assert forall a :: !HasKey(nodes, shape, a);
        entries := Joined(entries, nodes[n]);
        root, shape := n, Branch(Leaf, n, Leaf);
        return;
      }
      InsertNode(n);
    }

    method NewNode(addr: nat, size: nat, mask: Mask) returns (n: Ptr)
      requires Valid() && addr < WORD
      modifies this`nodes, this`next
      ensures Valid() && n in nodes && n != NIL && n !in Ptrs(shape)
      ensures nodes[n] == Node(addr, size, NormalizeMask(mask), NIL, NIL)
    {
      ghost var before := nodes;
      n := next;
      RepBounds(nodes, root, shape, -1, WORD);
      nodes, next := nodes[n := Node(addr, size, NormalizeMask(mask), NIL, NIL)], next + 1;
      DescribesFrame(before, nodes, root, shape, entries);
    }

    method InsertNode(n: Ptr)
      requires Valid() && root != NIL && n in nodes && n != NIL && n !in Ptrs(shape)
      requires nodes[n].addr < WORD && nodes[n].mask != {} && nodes[n].left == NIL && nodes[n].right == NIL
      modifies this`nodes, this`shape, this`entries
      ensures Valid() && entries == With(old(entries), old(nodes[n].addr), old(nodes[n].size), old(nodes[n].mask))
    {
      var key := nodes[n].addr;
      var current := root;
      ghost var sub, lo: int, hi: int := shape, -1, WORD;
      while true
        invariant Valid() && nodes == old(nodes) && shape == old(shape) && entries == old(entries)
        invariant current != NIL && OnPath(nodes, shape, key, current)
        invariant Rep(nodes, current, sub, lo, hi)
        decreases sub
      {
        OnPathIn(nodes, shape, key, current);
        if key == nodes[current].addr {
          EntryOf(nodes, root, shape, entries, current);
          SetMask(current, nodes[current].mask + nodes[n].mask);
          return;
        }
        var link := Child(nodes[current], key);
        if link == NIL {
          Link(current, n);
          return;
        }
        OnPathStep(nodes, root, shape, -1, WORD, key, current);
        if key < nodes[current].addr {
          sub, hi := sub.left, nodes[current].addr;
        } else {
          sub, lo := sub.right, nodes[current].addr;
        }
        current := link;
      }
    }

    method Link(current: Ptr, n: Ptr)
      requires Valid() && n in nodes && CanLink(root, nodes, shape, nodes[n].addr, current, n)
      modifies this`nodes, this`shape, this`entries
      ensures Valid() && old(nodes[n].addr) !in old(entries)
      ensures entries == old(entries)[old(nodes[n].addr) := R.Entry(old(nodes[n].size), old(nodes[n].mask))]
    {
      DescribesGrow(nodes, root, shape, entries, current, n);
      assert {} + nodes[n].mask == nodes[n].mask;
      entries := Joined(entries, nodes[n]);
      shape := Grow(nodes, shape, nodes[n].addr, n);
      nodes := SetChild(nodes, current, nodes[n].addr, n);
    }

    method SetMask(p: Ptr, mask: Mask)
      requires Valid() && p in Ptrs(shape) && p in nodes
      modifies this`nodes, this`entries
      ensures Valid() && old(nodes[p].addr) in old(entries)
      ensures entries == old(entries)[old(nodes[p].addr) := old(entries)[old(nodes[p].addr)].(mask := mask)]
    {
      EntryOf(nodes, root, shape, entries, p);
      DescribesUpdate(nodes, root, shape, entries, p, nodes[p].size, mask);
      entries := entries[nodes[p].addr := R.Entry(nodes[p].size, mask)];
      nodes := nodes[p := nodes[p].(mask := mask)];
    }

    /** Takes owners off an address and says which are left. */
    method FreeVarying(addr: nat, layers: Mask) returns (remaining: Mask, found: bool)
      requires Valid() && addr < WORD
      modifies this`nodes, this`entries
      ensures Valid() && found == (addr in old(entries))
      ensures !found ==> entries == old(entries) && remaining == {}
      ensures found ==> remaining == old(entries)[addr].mask - layers
                        && entries == old(entries)[addr := old(entries)[addr].(mask := remaining)]
    {
      var p := Find(addr);
      if p == NIL {
        return {}, false;
      }
      EntryOf(nodes, root, shape, entries, p);
      remaining, found := nodes[p].mask - layers, true;
      SetMask(p, remaining);
    }
  }

  /** A block of runtime memory and its pin; `id` tells pins apart. */
  datatype Block = Block(id: nat, size: nat)

  /** The blocks held are exactly the addresses that somebody owns. */
  ghost predicate Matches(blocks: map<nat, Block>, entries: map<nat, R.Entry>) {
    forall a :: a in blocks <==> a in entries && entries[a].mask != {}
  }

  ghost predicate HeldPin(blocks: map<nat, Block>, id: nat) {
    exists a :: a in blocks && blocks[a].id == id
  }

  /** Of the `made` pins so far, those of the blocks held have not been undone and each other one has been
      undone exactly once. */
  ghost predicate Ledger(blocks: map<nat, Block>, made: nat, undone: multiset<nat>) {
    && (forall a :: a in blocks ==> blocks[a].id < made)
    && (forall a, b :: a in blocks && b in blocks && blocks[a].id == blocks[b].id ==> a == b)
    && (forall id: nat :: undone[id] == if id < made && !HeldPin(blocks, id) then 1 else 0)
  }

  lemma {:induction false} LedgerAdd(blocks: map<nat, Block>, made: nat, undone: multiset<nat>, addr: nat, size: nat)
    requires Ledger(blocks, made, undone) && addr !in blocks
    ensures Ledger(blocks[addr := Block(made, size)], made + 1, undone)
    ensures Ledger(blocks, made + 1, undone + multiset{made})
  {
    var after := blocks[addr := Block(made, size)];
    forall id: nat ensures HeldPin(after, id) <==> HeldPin(blocks, id) || id == made {
      if a :| a in blocks && blocks[a].id == id { assert a in after && after[a].id == id; }
      if id == made { assert addr in after && after[addr].id == id; }
    }
    assert !HeldPin(blocks, made);
  }

  lemma {:induction false} LedgerRemove(blocks: map<nat, Block>, made: nat, undone: multiset<nat>, addr: nat)
    requires Ledger(blocks, made, undone) && addr in blocks
    ensures Ledger(blocks - {addr}, made, undone + multiset{blocks[addr].id})
  {
    var after := blocks - {addr};
    forall id: nat ensures HeldPin(after, id) <==> HeldPin(blocks, id) && id != blocks[addr].id {
      if a :| a in blocks && blocks[a].id == id {
        if a != addr { assert a in after && after[a].id == id; }
      }
    }
    assert HeldPin(blocks, blocks[addr].id);
  }

  lemma {:induction false} WithMatches(blocks: map<nat, Block>, entries: map<nat, R.Entry>, addr: nat, size: nat,
                                       mask: Mask, block: Block)
    requires Matches(blocks, entries)
    ensures Matches(blocks[addr := block], With(entries, addr, size, mask))
  {
  }

  lemma {:induction false} Fewer(blocks: map<nat, Block>, addr: nat)
    requires addr in blocks
    ensures |blocks - {addr}| < |blocks|
  {
    assert (blocks - {addr}).Keys == blocks.Keys - {addr};
    assert |blocks - {addr}| == |(blocks - {addr}).Keys| && |blocks| == |blocks.Keys|;
  }

  /** When no block is held, every pin ever made has been undone exactly once. */
  lemma {:induction false} EveryPinUndoneOnce(blocks: map<nat, Block>, made: nat, undone: multiset<nat>)
    requires Ledger(blocks, made, undone) && blocks == map[]
    ensures forall id: nat :: undone[id] == if id < made then 1 else 0
  {
    assert forall id: nat :: !HeldPin(blocks, id);
  }

  // ---- Sequences of calls ----------------------------------------------------------------------------

  /** A call, and for an allocation the address that the runtime gives. */
  datatype Op =
    | OpAlloc(size: nat, mask: Mask, thread: nat, chunk: nat, addr: nat)
    | OpShare(addr: nat, mask: Mask)
    | OpFree(addr: nat, layers: Mask)

  datatype Outcome = Allocated(addr: nat, bucket: nat) | Shared | Freed(last: bool) | Failed(error: Error)

  /** Who owns `addr` after these calls, by the calls alone. */
  function Owners(ops: seq<Op>, addr: nat): Mask
    decreases |ops|
  {
    if ops == [] then {}
    else
      var (before, op) := (Owners(ops[..|ops| - 1], addr), ops[|ops| - 1]);
      if op.addr != addr then before
      else
        match op
        case OpAlloc(size, mask, _, _, _) => if size > 0 then before + NormalizeMask(mask) else before
        case OpShare(_, mask) => if before != {} then before + NormalizeMask(mask) else {}
        case OpFree(_, layers) => before - layers
  }

  /** A block was ever handed out at `addr`. */
  ghost predicate HandedOut(ops: seq<Op>, addr: nat) {
    exists i :: 0 <= i < |ops| && ops[i].OpAlloc? && ops[i].size > 0 && ops[i].addr == addr
  }

  /** The entries are the addresses ever handed out, with the owners that the calls leave them. */
  ghost predicate Follows(entries: map<nat, R.Entry>, ops: seq<Op>) {
    forall a :: (a in entries <==> HandedOut(ops, a))
                && Owners(ops, a) == if a in entries then entries[a].mask else {}
  }

  /** The arguments are words, and the runtime gives no address that somebody owns. */
  ghost predicate Callable(ops: seq<Op>, op: Op) {
    && op.addr < WORD
    && (op.OpAlloc? ==> op.thread < WORD && op.chunk < WORD && (op.size > 0 ==> Owners(ops, op.addr) == {}))
  }

  /** What a call answers after the calls `ops`. */
  ghost predicate Answers(scale: nat, k: nat, ops: seq<Op>, op: Op, o: Outcome)
    requires 0 < scale
  {
    match op
    case OpAlloc(size, _, thread, chunk, addr) =>
      if size == 0 then o == Failed(ErrInvalidSize)
      else o == Allocated(addr, BucketFrom(WideEntry(scale, thread % scale, chunk % scale), scale, k, thread, chunk))
    case OpShare(addr, _) => o == if Owners(ops, addr) != {} then Shared else Failed(ErrNotFound)
    case OpFree(addr, layers) =>
      o == if !HandedOut(ops, addr) then Failed(ErrNotFound) else Freed(Owners(ops + [op], addr) == {})
  }

  /** The entries after a call. */
  function Entered(entries: map<nat, R.Entry>, op: Op, size: nat): map<nat, R.Entry> {
    match op
    case OpAlloc(size, mask, _, _, addr) => if size > 0 then With(entries, addr, size, mask) else entries
    case OpShare(addr, mask) =>
      if addr in entries && entries[addr].mask != {} then With(entries, addr, size, mask) else entries
    case OpFree(addr, layers) =>
      if addr in entries then entries[addr := entries[addr].(mask := entries[addr].mask - layers)] else entries
  }

  lemma {:induction false} HandedOutSnoc(ops: seq<Op>, op: Op, addr: nat)
    ensures HandedOut(ops + [op], addr) <==> HandedOut(ops, addr) || (op.OpAlloc? && op.size > 0 && op.addr == addr)
  {
    var after := ops + [op];
    if HandedOut(ops, addr) {
      var i :| 0 <= i < |ops| && ops[i].OpAlloc? && ops[i].size > 0 && ops[i].addr == addr;
      assert after[i] == ops[i];
    }
    assert after[|ops|] == op;
  }

  lemma {:induction false} FollowsStep(entries: map<nat, R.Entry>, ops: seq<Op>, op: Op, size: nat)
    requires Follows(entries, ops)
    ensures Follows(Entered(entries, op, size), ops + [op])
  {
    var after, calls := Entered(entries, op, size), ops + [op];
    assert calls[..|calls| - 1] == ops;
    forall a ensures (a in after <==> HandedOut(calls, a))
                     && Owners(calls, a) == if a in after then after[a].mask else {}
    {
      HandedOutSnoc(ops, op, a);
      assert (a in entries <==> HandedOut(ops, a))
             && Owners(ops, a) == if a in entries then entries[a].mask else {};
    }
  }

  /** The matrix entry, which is 64 bits wide here and so never cut. */
  function WideEntry(scale: nat, row: nat, col: nat): nat
    requires 0 < scale
  {
    (row + col) % scale + 1
  }

  /** The bucket is the block allocator's, whenever its narrower entries are not cut either. */
  lemma {:induction false} SameBucket(scale: nat, k: nat, thread: nat, chunk: nat)
    requires 0 < scale < UINT32
    ensures BucketFrom(WideEntry(scale, thread % scale, chunk % scale), scale, k, thread, chunk)
            == Bucket(scale, k, thread, chunk)
  {
    SmallRemainder(WideEntry(scale, thread % scale, chunk % scale), UINT32);
  }

  class Arena {
    const scale: nat
    ghost const k: nat
    const matrix: array2<nat>
    const tree: MemTree
    var blocks: map<nat, Block>
    var closed: bool
    /** The number of pins made so far, from which pins get their ids. */
    var made: nat
    /** The ids of the pins undone, with repetition. */
    ghost var undone: multiset<nat>

    ghost predicate TopologyValid()
      reads matrix
    {
      && k <= 62 && scale == P.Pow2(k) && matrix.Length0 == scale && matrix.Length1 == scale
      && forall r, c :: 0 <= r < scale && 0 <= c < scale ==> matrix[r, c] == WideEntry(scale, r, c) < WORD
    }

    ghost predicate Valid()
      reads this, tree, matrix
    {
      && TopologyValid()
      && tree.Valid()
      && Ledger(blocks, made, undone)
      && (if closed then blocks == map[] else Matches(blocks, tree.entries))
    }

    constructor (scale: nat, ghost k: nat, matrix: array2<nat>)
      requires k <= 62 && scale == P.Pow2(k) && matrix.Length0 == scale && matrix.Length1 == scale
      requires forall r, c :: 0 <= r < scale && 0 <= c < scale ==> matrix[r, c] == WideEntry(scale, r, c) < WORD
      ensures Valid() && !closed && blocks == map[] && made == 0 && this.scale == scale && this.k == k
    {
      this.scale, this.k, this.matrix := scale, k, matrix;
      tree := new MemTree();
      blocks, closed := map[], false;
      made, undone := 0, multiset{};
    }

    method Bucket(thread: nat, chunk: nat) returns (bucket: nat)
      requires Valid() && thread < WORD && chunk < WORD
      ensures bucket < scale
      ensures bucket == BucketFrom(WideEntry(scale, thread % scale, chunk % scale), scale, k, thread, chunk)
      ensures var p := if scale <= 8 then 0x11B else if scale <= 16 then 0x1002D else 0x40000007;
              Residue(bucket, P.Clmul(P.Low((thread % scale + chunk % scale) % scale + 1, k), P.Xor(thread, chunk)),
                      k, p)
    {
      bucket := BucketIn(matrix, scale, thread, chunk, k);
    }

    /** A new block, at the address that the runtime gave. */
    method Alloc(size: nat, mask: Mask, thread: nat, chunk: nat, addr: nat) returns (r: Result<nat>, bucket: nat)
      requires Valid() && addr < WORD && (size > 0 ==> addr !in blocks) && thread < WORD && chunk < WORD
      modifies this, tree
      ensures Valid() && closed == old(closed)
      ensures r == if size == 0 then Err(ErrInvalidSize) else if closed then Err(ErrNotFound) else Ok(addr)
      ensures r.Err? ==> blocks == old(blocks) && tree.entries == old(tree.entries)
      ensures r.Ok? ==> blocks == old(blocks)[addr := Block(old(made), size)]
      ensures r.Ok? ==> tree.entries == With(old(tree.entries), addr, size, mask)
      ensures made == old(made) + if size == 0 then 0 else 1
      ensures bucket == if r.Ok?
              then BucketFrom(WideEntry(scale, thread % scale, chunk % scale), scale, k, thread, chunk) else 0
    {
      if size == 0 {
        return Err(ErrInvalidSize), 0;
      }
      bucket := Bucket(thread, chunk);
      r := Hold(size, mask, addr);
      if r.Err? {
        bucket := 0;
      }
    }

    /** Pins the block and, unless the arena is closed, holds it. */
    method Hold(size: nat, mask: Mask, addr: nat) returns (r: Result<nat>)
      requires Valid() && addr < WORD && addr !in blocks
      modifies this, tree
      ensures Valid() && closed == old(closed) && made == old(made) + 1
      ensures r == if closed then Err(ErrNotFound) else Ok(addr)
      ensures r.Err? ==> blocks == old(blocks) && tree.entries == old(tree.entries)
      ensures r.Ok? ==> blocks == old(blocks)[addr := Block(old(made), size)]
      ensures r.Ok? ==> tree.entries == With(old(tree.entries), addr, size, mask)
    {
      LedgerAdd(blocks, made, undone, addr, size);
      var id := made;
      made := made + 1;
      if closed {
        undone := undone + multiset{id};
        return Err(ErrNotFound);
      }
      blocks := blocks[addr := Block(id, size)];
      WithMatches(old(blocks), tree.entries, addr, size, mask, Block(id, size));
      tree.Insert(addr, size, mask);
      return Ok(addr);
    }

    method Share(addr: nat, mask: Mask) returns (r: Result<()>)
      requires Valid() && addr < WORD
      modifies this, tree
      ensures Valid() && closed == old(closed) && blocks == old(blocks) && made == old(made) && undone == old(undone)
      ensures r == if addr in blocks then Ok(()) else Err(ErrNotFound)
      ensures tree.entries == if r.Ok? then With(old(tree.entries), addr, blocks[addr].size, mask)
              else old(tree.entries)
    {
      if addr !in blocks {
        return Err(ErrNotFound);
      }
      tree.Insert(addr, blocks[addr].size, mask);
      return Ok(());
    }

    /** Takes owners off a block, and lets go of it with the last one.  A block that is free already is
        reported as free again. */
    method FreeVarying(addr: nat, layers: Mask) returns (r: Result<bool>)
      requires Valid() && addr < WORD
      modifies this, tree
      ensures Valid() && closed == old(closed) && made == old(made)
      ensures addr !in old(tree.entries) ==>
                r == Err(ErrNotFound) && tree.entries == old(tree.entries) && blocks == old(blocks)
      ensures addr in old(tree.entries) ==>
                var left := old(tree.entries)[addr].mask - layers;
                && r == Ok(left == {})
                && tree.entries == old(tree.entries)[addr := old(tree.entries)[addr].(mask := left)]
                && blocks == if left == {} then old(blocks) - {addr} else old(blocks)
      ensures undone == old(undone) + if addr in old(blocks) && addr !in blocks then multiset{old(blocks)[addr].id}
              else multiset{}
    {
      var remaining, found := tree.FreeVarying(addr, layers);
      if !found {
        return Err(ErrNotFound);
      }
      if remaining != {} {
        return Ok(false);
      }
      LetGo(addr);
      return Ok(true);
    }

    /** Undoes the pin of a block that nobody owns any more, if the arena holds it. */
    method LetGo(addr: nat)
      requires Ledger(blocks, made, undone)
      modifies this`blocks, this`undone
      ensures Ledger(blocks, made, undone) && blocks == old(blocks) - {addr}
      ensures undone == old(undone) + if addr in old(blocks) then multiset{old(blocks)[addr].id} else multiset{}
    {
      if addr !in blocks {
        assert blocks - {addr} == blocks;
        return;
      }
      LedgerRemove(blocks, made, undone, addr);
      undone := undone + multiset{blocks[addr].id};
      blocks := blocks - {addr};
    }

    /** Any sequence of calls on a new arena leaves every address the owners that the calls say, and answers
        accordingly. */
    method Perform(ops: seq<Op>) returns (outcomes: seq<Outcome>)
      requires Valid() && !closed && tree.entries == map[]
      requires forall n :: 0 <= n < |ops| ==> Callable(ops[..n], ops[n])
      modifies this, tree
      ensures Valid() && !closed
      ensures |outcomes| == |ops|
      ensures forall n :: 0 <= n < |ops| ==> Answers(scale, k, ops[..n], ops[n], outcomes[n])
      ensures Follows(tree.entries, ops) && forall a :: a in blocks <==> Owners(ops, a) != {}
    {
      outcomes := [];
      for i := 0 to |ops|
        invariant Valid() && !closed && |outcomes| == i
        invariant Follows(tree.entries, ops[..i])
        invariant forall n :: 0 <= n < i ==> Answers(scale, k, ops[..n], ops[n], outcomes[n])
      {
        assert ops[..i + 1] == ops[..i] + [ops[i]];
        var o := Call(ops[..i], ops[i]);
        outcomes := outcomes + [o];
      }
      assert ops[..|ops|] == ops;
    }

    /** One call, after the calls `before`. */
    method Call(ghost before: seq<Op>, op: Op) returns (o: Outcome)
      requires Valid() && !closed && Follows(tree.entries, before) && Callable(before, op)
      modifies this, tree
      ensures Valid() && !closed && Follows(tree.entries, before + [op])
      ensures Answers(scale, k, before, op, o)
    {
      ghost var size := if op.OpAlloc? then op.size else if op.addr in blocks then blocks[op.addr].size else 0;
      FollowsStep(tree.entries, before, op, size);
      match op {
        case OpAlloc(size, mask, thread, chunk, addr) =>
          var r, bucket := Alloc(size, mask, thread, chunk, addr);
          o := if r.Ok? then Allocated(r.value, bucket) else Failed(r.error);
        case OpShare(addr, mask) =>
          var r := Share(addr, mask);
          o := if r.Ok? then Shared else Failed(r.error);
        case OpFree(addr, layers) =>
          var r := FreeVarying(addr, layers);
          o := if r.Ok? then Freed(r.value) else Failed(r.error);
      }
    }

    /** Lets go of every block; from then on every pin ever made has been undone exactly once. */
    method Close()
      requires Valid()
      modifies this
      ensures Valid() && closed && made == old(made)
      ensures forall id: nat :: undone[id] == if id < made then 1 else 0
    {
      if !closed {
        LetAllGo();
        closed := true;
      }
      EveryPinUndoneOnce(blocks, made, undone);
    }

    method LetAllGo()
      requires Ledger(blocks, made, undone)
      modifies this`blocks, this`undone
      ensures Ledger(blocks, made, undone) && blocks == map[]
    {
      while blocks != map[]
        invariant Ledger(blocks, made, undone)
        decreases |blocks|
      {
        var addr :| addr in blocks;
        Fewer(blocks, addr);
        LetGo(addr);
      }
    }
  }
}
