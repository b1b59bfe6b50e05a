/** What every sequence of calls keeps: sound blocks, conserved bytes and the metadata budget. */
module RegistryTheorems {
  import opened Words
  import opened Layout
  import opened Registry

  /** The caller shares and frees only blocks that somebody owns.  Unknown addresses are harmless. */
  predicate Disciplined(r: Registry, op: Op) {
    match op
    case OpShare(addr, _) => addr in r.blocks ==> r.blocks[addr].mask != {}
    case OpFree(addr, _) => addr in r.blocks ==> r.blocks[addr].mask != {}
    case _ => true
  }

  /** Neither counter wraps around on this call. */
  predicate Fits(r: Registry, op: Op) {
    && Roomy(r)
    && WordArgs(op)
    && (op.OpAlloc? ==> r.bump + op.size + 8 < WORD)
  }

  predicate Failure(o: Outcome) {
    o == Failed(ErrOutOfMemory)
  }

  // ---- Soundness, through failures and all ---------------------------------------------------------

  ghost predicate Contained(c: Config, r: Registry) {
    forall a :: a in r.blocks ==>
      && c.payloadBase <= a && 0 < r.blocks[a].size
      && a + r.blocks[a].size <= r.bump && a + r.blocks[a].size <= c.payloadEnd
      && a % 8 == 0 && r.blocks[a].size % 8 == 0
  }

  ghost predicate Disjoint(blocks: map<nat, Entry>) {
    forall a, b :: a in blocks && b in blocks && a < b ==> a + blocks[a].size <= b
  }

  /** The free stack holds distinct blocks that nobody owns, at their full extents. */
  ghost predicate Stacked(free: seq<Extent>, blocks: map<nat, Entry>) {
    && (forall i :: 0 <= i < |free| ==> free[i].addr in blocks && blocks[free[i].addr] == Entry(free[i].size, {}))
    && (forall i, j :: 0 <= i < j < |free| ==> free[i].addr != free[j].addr)
  }

  ghost predicate Sound(c: Config, r: Registry) {
    && c.payloadBase <= r.bump && r.bump % 8 == 0 && !r.closed
    && Contained(c, r) && Disjoint(r.blocks) && Stacked(r.free, r.blocks)
  }

  lemma {:induction false} Aligned(bump: nat, size: nat)
    requires bump % 8 == 0 && bump + size + 8 < WORD && 0 < size
    ensures var want := AlignUp(size, 8);
            0 < want && want % 8 == 0 && (bump + want) % WORD == bump + want && (bump + want) % 8 == 0
  {
  }

  /** Every block of `a` is in `b`, at the same extent. */
  ghost predicate KeepsExtents(a: Registry, b: Registry) {
    forall x :: x in a.blocks ==> x in b.blocks && b.blocks[x].size == a.blocks[x].size
  }

  /** New owners at old extents. */
  lemma {:induction false} SoundOwners(c: Config, r: Registry, addr: nat, mask: Mask)
    requires Sound(c, r) && addr in r.blocks
    ensures var after := r.(blocks := r.blocks[addr := r.blocks[addr].(mask := mask)]);
            Contained(c, after) && Disjoint(after.blocks) && KeepsExtents(r, after)
  {
  }

  lemma {:induction false} StackedPush(free: seq<Extent>, blocks: map<nat, Entry>, addr: nat, mask: Mask)
    requires Stacked(free, blocks) && addr in blocks && blocks[addr].mask != {}
    ensures Stacked(free, blocks[addr := blocks[addr].(mask := mask)])
    ensures mask == {} ==>
              Stacked([Extent(addr, blocks[addr].size)] + free, blocks[addr := blocks[addr].(mask := mask)])
  {
  }

  lemma {:induction false} SoundReuse(c: Config, r: Registry, mask: Mask)
    requires Sound(c, r) && r.free != []
    ensures var after := Record(c, r.(free := r.free[1..]), r.free[0].addr, r.free[0].size, mask).0;
            Sound(c, after) && KeepsExtents(r, after)
  {
    SoundOwners(c, r, r.free[0].addr, NormalizeMask(mask));
    var blocks := Install(r.blocks, r.free[0].addr, r.free[0].size, mask);
    assert {} + NormalizeMask(mask) == NormalizeMask(mask);
    assert Stacked(r.free[1..], blocks);
  }

  lemma {:induction false} SoundBump(c: Config, r: Registry, want: nat, mask: Mask)
    requires Sound(c, r) && 0 < want && want % 8 == 0 && (r.bump + want) % 8 == 0
    ensures Sound(c, r.(bump := r.bump + want))
    ensures r.bump + want <= c.payloadEnd ==>
              var after := r.(bump := r.bump + want, blocks := Install(r.blocks, r.bump, want, mask));
              Sound(c, after) && KeepsExtents(r, after)
  {
    if r.bump + want <= c.payloadEnd {
      assert r.bump !in r.blocks;
      var blocks := Install(r.blocks, r.bump, want, mask);
      assert Stacked(r.free, blocks);
      assert Disjoint(blocks);
    }
  }

  /** Only the payload counter, the blocks and the free stack matter. */
  lemma {:induction false} SoundParts(c: Config, a: Registry, b: Registry)
    requires Sound(c, a) && a.bump == b.bump && a.blocks == b.blocks && a.free == b.free && a.closed == b.closed
    ensures Sound(c, b)
  {
  }

  /** The block and the counter that a record leaves, whether or not there is room for it. */
  lemma {:induction false} SoundRecord(c: Config, r: Registry, moved: Registry, addr: nat, want: nat, mask: Mask)
    requires Sound(c, r) && Sound(c, moved) && KeepsExtents(r, moved)
    requires var after := moved.(blocks := Install(moved.blocks, addr, want, mask));
             Sound(c, after) && KeepsExtents(r, after)
    ensures Sound(c, Record(c, moved, addr, want, mask).0) && KeepsExtents(r, Record(c, moved, addr, want, mask).0)
  {
    var (after, a) := Record(c, moved, addr, want, mask);
    SoundParts(c, if a.Ok? then moved.(blocks := Install(moved.blocks, addr, want, mask)) else moved, after);
  }

  lemma {:induction false} TakeIs(c: Config, r: Registry, want: nat, mask: Mask, moved: Registry)
    requires moved == r.(bump := r.bump + want) && r.bump + want < WORD
    ensures Take(c, r, want, mask)
            == if r.free != [] && r.free[0].size >= want then
                 Record(c, r.(free := r.free[1..]), r.free[0].addr, r.free[0].size, mask)
               else if moved.bump > c.payloadEnd then (moved, Err(ErrOutOfMemory))
               else Record(c, moved, r.bump, want, mask)
  {
    Wrapped(r.bump + want, (r.bump + want) % WORD);
  }

  lemma {:induction false} SoundTake(c: Config, r: Registry, want: nat, mask: Mask)
    requires Sound(c, r) && 0 < want && want % 8 == 0 && (r.bump + want) % 8 == 0 && r.bump + want < WORD
    ensures Sound(c, Take(c, r, want, mask).0) && KeepsExtents(r, Take(c, r, want, mask).0)
  {
    var moved := r.(bump := r.bump + want);
    TakeIs(c, r, want, mask, moved);
    if r.free != [] && r.free[0].size >= want {
      SoundReuse(c, r, mask);
    } else {
      SoundBump(c, r, want, mask);
      if moved.bump <= c.payloadEnd { SoundRecord(c, r, moved, r.bump, want, mask); }
    }
  }

  lemma {:induction false} SoundAlloc(c: Config, r: Registry, size: nat, mask: Mask)
    requires Sound(c, r) && r.bump + size + 8 < WORD
    ensures Sound(c, Alloc(c, r, size, mask).0) && KeepsExtents(r, Alloc(c, r, size, mask).0)
  {
    if size != 0 {
      Aligned(r.bump, size);
      SoundTake(c, r, AlignUp(size, 8), mask);
    }
  }

  lemma {:induction false} SoundFree(c: Config, r: Registry, addr: nat, layers: Mask)
    requires Sound(c, r) && Disciplined(r, OpFree(addr, layers))
    ensures Sound(c, Free(c, r, addr, layers).0) && KeepsExtents(r, Free(c, r, addr, layers).0)
  {
    if addr in r.blocks {
      SoundOwners(c, r, addr, r.blocks[addr].mask - layers);
      StackedPush(r.free, r.blocks, addr, r.blocks[addr].mask - layers);
    }
  }

  /** A call of a disciplined caller keeps the registry sound, and every block at its original extent. */
  lemma {:induction false} SoundStep(c: Config, scale: nat, k: nat, r: Registry, op: Op)
    requires c.WellFormed() && 0 < scale
    requires Sound(c, r) && Disciplined(r, op) && Fits(r, op)
    ensures Sound(c, Step(c, scale, k, r, op).0)
    ensures !op.OpReset? ==> KeepsExtents(r, Step(c, scale, k, r, op).0)
  {
    match op
    case OpAlloc(size, mask, _, _) => SoundAlloc(c, r, size, mask);
    case OpFree(addr, layers) => SoundFree(c, r, addr, layers);
    case OpShare(_, _) =>
    case OpReset =>
  }

  /** Every call of the run is disciplined and wraps no counter. */
  ghost predicate GoodRun(c: Config, scale: nat, k: nat, r: Registry, ops: seq<Op>)
    requires 0 < scale
    decreases |ops|
  {
    ops == []
    || (Disciplined(r, ops[0]) && Fits(r, ops[0]) && GoodRun(c, scale, k, Step(c, scale, k, r, ops[0]).0, ops[1..]))
  }

  ghost predicate DisciplinedRun(c: Config, scale: nat, k: nat, r: Registry, ops: seq<Op>)
    requires 0 < scale
    decreases |ops|
  {
    ops != [] ==> Disciplined(r, ops[0]) && DisciplinedRun(c, scale, k, Step(c, scale, k, r, ops[0]).0, ops[1..])
  }

  /** The bytes asked for, with room for alignment. */
  function Asked(ops: seq<Op>): nat {
    if ops == [] then 0 else (if ops[0].OpAlloc? then ops[0].size + 8 else 0) + Asked(ops[1..])
  }

  lemma {:induction false} StepAdvances(c: Config, scale: nat, k: nat, r: Registry, op: Op)
    requires c.WellFormed() && 0 < scale && c.payloadBase <= r.bump && c.nodeBase <= r.meta && Fits(r, op)
    ensures var after := Step(c, scale, k, r, op).0;
            && c.payloadBase <= after.bump <= r.bump + (if op.OpAlloc? then op.size + 8 else 0)
            && c.nodeBase <= after.meta <= r.meta + NODE_BYTES
  {
    match op
    case OpAlloc(size, mask, _, _) => TakeAdvances(c, r, AlignUp(size, 8), mask);
    case OpFree(_, _) => assert (r.meta + SLOT_BYTES) % WORD == r.meta + SLOT_BYTES;
    case _ =>
  }

  lemma {:induction false} TakeAdvances(c: Config, r: Registry, want: nat, mask: Mask)
    requires Roomy(r) && r.bump + want < WORD
    ensures var after := Take(c, r, want, mask).0;
            r.bump <= after.bump <= r.bump + want && r.meta <= after.meta <= r.meta + NODE_BYTES
  {
    assert (r.meta + NODE_BYTES) % WORD == r.meta + NODE_BYTES;
    assert (r.bump + want) % WORD == r.bump + want;
  }

  /** Callers can tell beforehand that no counter wraps: what they ask for, and 40 bytes for each call, fit
      the word. */
  lemma {:induction false} ModestRunsAreGood(c: Config, scale: nat, k: nat, r: Registry, ops: seq<Op>)
    requires c.WellFormed() && 0 < scale && c.payloadBase <= r.bump && c.nodeBase <= r.meta
    requires r.bump + Asked(ops) < WORD && r.meta + NODE_BYTES * (|ops| + 1) < WORD
    requires forall i :: 0 <= i < |ops| ==> WordArgs(ops[i])
    ensures RoomyRun(c, scale, k, r, ops)
    ensures DisciplinedRun(c, scale, k, r, ops) ==> GoodRun(c, scale, k, r, ops)
    decreases |ops|
  {
    if ops != [] {
      StepAdvances(c, scale, k, r, ops[0]);
      ModestRunsAreGood(c, scale, k, Step(c, scale, k, r, ops[0]).0, ops[1..]);
    }
  }

  /** In every good run live blocks stay disjoint, aligned, inside the payload and off the free stack. */
  lemma {:induction false} SoundRun(c: Config, scale: nat, k: nat, r: Registry, ops: seq<Op>)
    requires c.WellFormed() && 0 < scale
    requires Sound(c, r) && GoodRun(c, scale, k, r, ops)
    ensures Sound(c, Run(c, scale, k, r, ops).0)
    decreases |ops|
  {
    if ops != [] {
      SoundStep(c, scale, k, r, ops[0]);
      SoundRun(c, scale, k, Step(c, scale, k, r, ops[0]).0, ops[1..]);
    }
  }

  lemma {:induction false} SoundFromFresh(c: Config, scale: nat, k: nat, ops: seq<Op>)
    requires c.WellFormed() && 0 < scale && GoodRun(c, scale, k, Fresh(c), ops)
    ensures Sound(c, Run(c, scale, k, Fresh(c), ops).0)
  {
    assert Sound(c, Fresh(c));
    SoundRun(c, scale, k, Fresh(c), ops);
  }

  /** A block that is freed and handed out again, however often, keeps the extent it was born with. */
  lemma {:induction false} ReusedBlocksKeepTheirExtent(c: Config, scale: nat, k: nat, r: Registry, ops: seq<Op>)
    requires c.WellFormed() && 0 < scale
    requires Sound(c, r) && GoodRun(c, scale, k, r, ops) && OpReset !in ops
    ensures KeepsExtents(r, Run(c, scale, k, r, ops).0)
    decreases |ops|
  {
    if ops != [] {
      assert ops[0] != OpReset;
      SoundStep(c, scale, k, r, ops[0]);
      ReusedBlocksKeepTheirExtent(c, scale, k, Step(c, scale, k, r, ops[0]).0, ops[1..]);
    }
  }

  // ---- What callers can tell from their own calls ---------------------------------------------------

  ghost predicate Owns(r: Registry, addr: nat, bit: nat) {
    addr in r.blocks && bit in r.blocks[addr].mask
  }

  /** Whether `bit` owns the block at `addr` after a call with this outcome, if it did or did not before. */
  predicate OwnsNext(before: bool, op: Op, o: Outcome, addr: nat, bit: nat) {
    match op
    case OpAlloc(_, mask, _, _) => before || (o.Allocated? && o.addr == addr && bit in NormalizeMask(mask))
    case OpShare(a, mask) => before || (o == Shared && a == addr && bit in NormalizeMask(mask))
    case OpFree(a, layers) => before && !(a == addr && bit in layers)
    case OpReset => before && o != Done
  }

  predicate OwnsAfter(before: bool, ops: seq<Op>, outcomes: seq<Outcome>, addr: nat, bit: nat)
    requires |ops| == |outcomes|
    decreases |ops|
  {
    if ops == [] then before
    else OwnsAfter(OwnsNext(before, ops[0], outcomes[0], addr, bit), ops[1..], outcomes[1..], addr, bit)
  }

  lemma {:induction false} OwnsStep(c: Config, scale: nat, k: nat, r: Registry, op: Op, addr: nat, bit: nat)
    requires 0 < scale
    ensures var (r1, o) := Step(c, scale, k, r, op);
            Owns(r1, addr, bit) <==> OwnsNext(Owns(r, addr, bit), op, o, addr, bit)
  {
  }

  /** Who owns a block follows from the calls and their outcomes alone: an owner joins by an allocation or a
      share that succeeded and leaves by a free that names it, even by one that fails for want of memory. */
  lemma {:induction false} OwnersFollowTheCalls(c: Config, scale: nat, k: nat, r: Registry, ops: seq<Op>, addr: nat,
      bit: nat)
    requires 0 < scale
    ensures var (last, outcomes) := Run(c, scale, k, r, ops);
            |outcomes| == |ops| && (Owns(last, addr, bit) <==> OwnsAfter(Owns(r, addr, bit), ops, outcomes, addr, bit))
    decreases |ops|
  {
    if ops != [] {
      OwnsStep(c, scale, k, r, ops[0], addr, bit);
      OwnersFollowTheCalls(c, scale, k, Step(c, scale, k, r, ops[0]).0, ops[1..], addr, bit);
      var outcomes := Run(c, scale, k, r, ops).1;
      assert outcomes[1..] == Run(c, scale, k, Step(c, scale, k, r, ops[0]).0, ops[1..]).1;
    }
  }

  /** A block that was just freed is the next one handed out, to any request it is large enough for. */
  lemma {:induction false} LastFreedFirstReused(c: Config, r: Registry, addr: nat, layers: Mask, size: nat, mask: Mask)
    requires !r.closed && addr in r.blocks && r.meta + SLOT_BYTES + NODE_BYTES <= c.nodeEnd < WORD
    requires r.blocks[addr].mask <= layers && 0 < size && AlignUp(size, 8) <= r.blocks[addr].size
    ensures var (r1, freed) := Free(c, r, addr, layers);
            var (r2, again) := Alloc(c, r1, size, mask);
            && freed == Ok(true) && again == Ok(addr) && r2.free == r.free && r2.bump == r.bump
            && r2.blocks == r.blocks[addr := Entry(r.blocks[addr].size, NormalizeMask(mask))]
  {
    FreeReclaims(c, r, addr, layers);
    var r1 := Free(c, r, addr, layers).0;
    assert r1.free[0] == Extent(addr, r.blocks[addr].size) && r1.free[1..] == r.free;
    AllocReuses(c, r1, size, mask);
  }

  /** A top that is too small stays where it is, and so does the rest of the stack. */
  lemma {:induction false} TooSmallTopStays(c: Config, r: Registry, size: nat, mask: Mask)
    requires r.free != [] && 0 < size && r.free[0].size < AlignUp(size, 8)
    ensures Alloc(c, r, size, mask).0.free == r.free
    ensures Alloc(c, r, size, mask).1.Ok? ==> Alloc(c, r, size, mask).1.value == r.bump
  {
  }

  // ---- Conservation, before the first out-of-memory error ------------------------------------------

  /** The blocks of `order` lie end to end from `from` to `to`. */
  ghost predicate Tiles(blocks: map<nat, Entry>, order: seq<nat>, from: nat, to: nat)
    decreases |order|
  {
    if order == [] then from == to
    else order[0] == from && from in blocks && 0 < blocks[from].size
         && Tiles(blocks, order[1..], from + blocks[from].size, to)
  }

  /** The bytes of the blocks of `order` that are owned, or that are not. */
  ghost function Bytes(blocks: map<nat, Entry>, order: seq<nat>, owned: bool): nat
    decreases |order|
  {
    if order == [] then 0
    else
      (if order[0] in blocks && (blocks[order[0]].mask != {}) == owned then blocks[order[0]].size else 0)
      + Bytes(blocks, order[1..], owned)
  }

  ghost function FreeBytes(free: seq<Extent>): nat {
    if free == [] then 0 else free[0].size + FreeBytes(free[1..])
  }

  ghost function Owned(blocks: map<nat, Entry>): set<nat> {
    set a | a in blocks && blocks[a].mask != {}
  }

  /** `order` is every block, end to end over the payload from `base` to `bump`, and each block nobody owns
      is on the free stack. */
  ghost predicate Books(base: nat, blocks: map<nat, Entry>, order: seq<nat>, free: seq<Extent>, bump: nat) {
    && Tiles(blocks, order, base, bump)
    && (forall a :: a in blocks <==> a in order)
    && Stacked(free, blocks)
    && (forall a :: a in blocks && blocks[a].mask == {} ==> Extent(a, blocks[a].size) in free)
    && FreeBytes(free) == Bytes(blocks, order, false)
  }

  /** The counters say what they should. */
  ghost predicate Counted(c: Config, blocks: map<nat, Entry>, active: nat, meta: nat) {
    && active == |Owned(blocks)|
    && c.nodeBase + NODE_BYTES * active <= meta <= c.nodeEnd
  }

  ghost predicate Balanced(c: Config, r: Registry, order: seq<nat>) {
    && Books(c.payloadBase, r.blocks, order, r.free, r.bump)
    && Counted(c, r.blocks, r.active, r.meta)
    && !r.closed
  }

  /** The orders in which the books balance; a set, so that Dafny does not take the predicate apart. */
  ghost function Orders(c: Config, r: Registry): iset<seq<nat>> {
    iset order | Balanced(c, r, order)
  }

  lemma {:induction false} TilesSum(blocks: map<nat, Entry>, order: seq<nat>, from: nat, to: nat)
    requires Tiles(blocks, order, from, to)
    ensures from <= to && to - from == Bytes(blocks, order, true) + Bytes(blocks, order, false)
    ensures forall a :: a in order ==> from <= a < to
    decreases |order|
  {
    if order != [] {
      TilesSum(blocks, order[1..], from + blocks[from].size, to);
      assert order == [order[0]] + order[1..];
    }
  }

  /** Used payload is owned bytes plus free bytes. */
  lemma {:induction false} BytesAreConserved(c: Config, r: Registry, order: seq<nat>)
    requires Balanced(c, r, order)
    ensures r.bump - c.payloadBase == Bytes(r.blocks, order, true) + FreeBytes(r.free)
  {
    TilesSum(r.blocks, order, c.payloadBase, r.bump);
  }

  /** A block appended at the end of the used payload. */
  lemma {:induction false} TilesAppend(blocks: map<nat, Entry>, order: seq<nat>, from: nat, to: nat, e: Entry)
    requires Tiles(blocks, order, from, to) && 0 < e.size && e.mask != {}
    ensures Tiles(blocks[to := e], order + [to], from, to + e.size)
    ensures Bytes(blocks[to := e], order + [to], false) == Bytes(blocks, order, false)
    decreases |order|
  {
    TilesSum(blocks, order, from, to);
    if order != [] {
      TilesAppend(blocks, order[1..], from + blocks[from].size, to, e);
      assert (order + [to])[1..] == order[1..] + [to];
      assert from in order;
    } else {
      assert (order + [to])[1..] == [];
    }
  }

  /** Owners of one block change; its place does not. */
  lemma {:induction false} TilesUpdate(blocks: map<nat, Entry>, order: seq<nat>, from: nat, to: nat, a: nat, mask: Mask)
    requires Tiles(blocks, order, from, to) && a in blocks
    ensures Tiles(blocks[a := blocks[a].(mask := mask)], order, from, to)
    ensures Bytes(blocks[a := blocks[a].(mask := mask)], order, false)
            + (if a in order && blocks[a].mask == {} then blocks[a].size else 0)
            == Bytes(blocks, order, false) + (if a in order && mask == {} then blocks[a].size else 0)
    decreases |order|
  {
    if order != [] {
      TilesUpdate(blocks, order[1..], from + blocks[from].size, to, a, mask);
      TilesSum(blocks, order[1..], from + blocks[from].size, to);
      assert order == [order[0]] + order[1..];
    }
  }

  // One lemma for the books and one for the counters, for each way the registry changes.

  lemma {:induction false} BooksOwners(base: nat, blocks: map<nat, Entry>, order: seq<nat>, free: seq<Extent>,
      bump: nat, addr: nat, mask: Mask)
    requires Books(base, blocks, order, free, bump) && addr in blocks && blocks[addr].mask != {} && mask != {}
    ensures Books(base, blocks[addr := blocks[addr].(mask := mask)], order, free, bump)
  {
    StackedPush(free, blocks, addr, mask);
    TilesUpdate(blocks, order, base, bump, addr, mask);
  }

  lemma {:induction false} BooksReclaim(base: nat, blocks: map<nat, Entry>, order: seq<nat>, free: seq<Extent>,
      bump: nat, addr: nat)
    requires Books(base, blocks, order, free, bump) && addr in blocks && blocks[addr].mask != {}
    ensures Books(base, blocks[addr := blocks[addr].(mask := {})], order, [Extent(addr, blocks[addr].size)] + free,
            bump)
  {
    StackedPush(free, blocks, addr, {});
    TilesUpdate(blocks, order, base, bump, addr, {});
    var top := Extent(addr, blocks[addr].size);
    assert ([top] + free)[1..] == free;
  }

  lemma {:induction false} BooksReuse(base: nat, blocks: map<nat, Entry>, order: seq<nat>, free: seq<Extent>, bump: nat,
      mask: Mask)
    requires Books(base, blocks, order, free, bump) && free != [] && mask != {}
    ensures Books(base, blocks[free[0].addr := Entry(free[0].size, mask)], order, free[1..], bump)
  {
    TilesUpdate(blocks, order, base, bump, free[0].addr, mask);
    assert free == [free[0]] + free[1..];
    assert Stacked(free[1..], blocks[free[0].addr := Entry(free[0].size, mask)]);
  }

  lemma {:induction false} BooksBump(base: nat, blocks: map<nat, Entry>, order: seq<nat>, free: seq<Extent>, bump: nat,
      e: Entry)
    requires Books(base, blocks, order, free, bump) && e.mask != {}
    ensures bump !in blocks
    ensures 0 < e.size ==> Books(base, blocks[bump := e], order + [bump], free, bump + e.size)
  {
    TilesSum(blocks, order, base, bump);
    assert bump !in blocks;
    if 0 < e.size {
      TilesAppend(blocks, order, base, bump, e);
      assert Stacked(free, blocks[bump := e]);
    }
  }

  lemma {:induction false} CountedGain(c: Config, blocks: map<nat, Entry>, active: nat, meta: nat, a: nat, e: Entry)
    requires c.WellFormed() && Counted(c, blocks, active, meta) && meta + NODE_BYTES <= c.nodeEnd
    requires e.mask != {} && (a in blocks ==> blocks[a].mask == {})
    ensures Counted(c, blocks[a := e], (active + 1) % WORD, meta + NODE_BYTES)
  {
    assert Owned(blocks[a := e]) == Owned(blocks) + {a};
    assert a !in Owned(blocks);
  }

  lemma {:induction false} CountedLoss(c: Config, blocks: map<nat, Entry>, active: nat, meta: nat, a: nat)
    requires c.WellFormed() && Counted(c, blocks, active, meta) && meta + SLOT_BYTES <= c.nodeEnd
    requires a in blocks && blocks[a].mask != {}
    ensures Counted(c, blocks[a := blocks[a].(mask := {})], (active + WORD - 1) % WORD, meta + SLOT_BYTES)
  {
    assert Owned(blocks[a := blocks[a].(mask := {})]) == Owned(blocks) - {a};
    assert a in Owned(blocks);
    assert (active + WORD - 1) % WORD == active - 1;
  }

  lemma {:induction false} BalancedOwners(c: Config, r: Registry, order: seq<nat>, addr: nat, mask: Mask)
    requires Balanced(c, r, order) && addr in r.blocks && r.blocks[addr].mask != {} && mask != {}
    ensures Balanced(c, r.(blocks := r.blocks[addr := r.blocks[addr].(mask := mask)]), order)
  {
    BooksOwners(c.payloadBase, r.blocks, order, r.free, r.bump, addr, mask);
    assert Owned(r.blocks[addr := r.blocks[addr].(mask := mask)]) == Owned(r.blocks);
  }

  /** The order of the blocks after a call. */
  ghost function OrderAfter(c: Config, r: Registry, order: seq<nat>, op: Op): seq<nat> {
    match op
    case OpReset => []
    case OpAlloc(size, _, _, _) =>
      if size == 0 || (r.free != [] && r.free[0].size >= AlignUp(size, 8)) then order else order + [r.bump]
    case _ => order
  }

  lemma {:induction false} AllocReuses(c: Config, r: Registry, size: nat, mask: Mask)
    requires Roomy(r) && !r.closed && 0 < size && r.free != [] && r.free[0].size >= AlignUp(size, 8)
    requires Alloc(c, r, size, mask).1 != Err(ErrOutOfMemory)
    requires r.free[0].addr in r.blocks && r.blocks[r.free[0].addr].mask == {}
    ensures r.meta + NODE_BYTES <= c.nodeEnd
    ensures Alloc(c, r, size, mask).0
            == r.(meta := r.meta + NODE_BYTES, free := r.free[1..], active := (r.active + 1) % WORD,
                  blocks := r.blocks[r.free[0].addr := Entry(r.free[0].size, NormalizeMask(mask))])
  {
    assert {} + NormalizeMask(mask) == NormalizeMask(mask);
  }

  lemma {:induction false} AllocBumps(c: Config, r: Registry, size: nat, mask: Mask)
    requires Roomy(r) && !r.closed && 0 < size && (r.free == [] || r.free[0].size < AlignUp(size, 8))
    requires Alloc(c, r, size, mask).1 != Err(ErrOutOfMemory)
    requires r.bump + size + 8 < WORD && r.bump !in r.blocks
    ensures 0 < AlignUp(size, 8) && r.meta + NODE_BYTES <= c.nodeEnd
    ensures Alloc(c, r, size, mask).0
            == r.(meta := r.meta + NODE_BYTES, bump := r.bump + AlignUp(size, 8), active := (r.active + 1) % WORD,
                  blocks := r.blocks[r.bump := Entry(AlignUp(size, 8), NormalizeMask(mask))])
  {
    assert {} + NormalizeMask(mask) == NormalizeMask(mask);
    assert (r.bump + AlignUp(size, 8)) % WORD == r.bump + AlignUp(size, 8);
  }

  lemma {:induction false} BalancedReuse(c: Config, r: Registry, order: seq<nat>, owners: Mask)
    requires c.WellFormed() && order in Orders(c, r) && r.free != [] && owners != {} && r.meta + NODE_BYTES <= c.nodeEnd
    ensures order in Orders(c, r.(meta := r.meta + NODE_BYTES, free := r.free[1..], active := (r.active + 1) % WORD,
                                  blocks := r.blocks[r.free[0].addr := Entry(r.free[0].size, owners)]))
  {
    BooksReuse(c.payloadBase, r.blocks, order, r.free, r.bump, owners);
    CountedGain(c, r.blocks, r.active, r.meta, r.free[0].addr, Entry(r.free[0].size, owners));
  }

  lemma {:induction false} BalancedBump(c: Config, r: Registry, order: seq<nat>, e: Entry)
    requires c.WellFormed() && order in Orders(c, r) && e.mask != {}
    ensures r.bump !in r.blocks
    ensures 0 < e.size && r.meta + NODE_BYTES <= c.nodeEnd ==>
              order + [r.bump] in Orders(c, r.(meta := r.meta + NODE_BYTES, bump := r.bump + e.size,
                                               active := (r.active + 1) % WORD, blocks := r.blocks[r.bump := e]))
  {
    BooksBump(c.payloadBase, r.blocks, order, r.free, r.bump, e);
    if 0 < e.size && r.meta + NODE_BYTES <= c.nodeEnd {
      CountedGain(c, r.blocks, r.active, r.meta, r.bump, e);
    }
  }

  lemma {:induction false} TopIsIdle(c: Config, r: Registry, order: seq<nat>)
    requires order in Orders(c, r)
    ensures !r.closed && (r.free != [] ==> r.free[0].addr in r.blocks && r.blocks[r.free[0].addr].mask == {})
  {
  }

  lemma {:induction false} BalancedAlloc(c: Config, r: Registry, order: seq<nat>, size: nat, mask: Mask, thread: nat,
      chunk: nat)
    requires c.WellFormed() && order in Orders(c, r) && Fits(r, OpAlloc(size, mask, thread, chunk))
    requires Alloc(c, r, size, mask).1 != Err(ErrOutOfMemory)
    ensures OrderAfter(c, r, order, OpAlloc(size, mask, thread, chunk)) in Orders(c, Alloc(c, r, size, mask).0)
  {
    TopIsIdle(c, r, order);
    if size != 0 {
      var want, owners := AlignUp(size, 8), NormalizeMask(mask);
      if r.free != [] && r.free[0].size >= want {
        AllocReuses(c, r, size, mask);
        BalancedReuse(c, r, order, owners);
      } else {
        BalancedBump(c, r, order, Entry(want, owners));
        AllocBumps(c, r, size, mask);
      }
    }
  }

  lemma {:induction false} BalancedFree(c: Config, r: Registry, order: seq<nat>, addr: nat, layers: Mask)
    requires c.WellFormed() && order in Orders(c, r) && Roomy(r) && Disciplined(r, OpFree(addr, layers))
    requires Free(c, r, addr, layers).1 != Err(ErrOutOfMemory)
    ensures order in Orders(c, Free(c, r, addr, layers).0)
  {
    if addr in r.blocks {
      var left := r.blocks[addr].mask - layers;
      if left != {} {
        BalancedOwners(c, r, order, addr, left);
      } else {
        FreeReclaims(c, r, addr, layers);
        BooksReclaim(c.payloadBase, r.blocks, order, r.free, r.bump, addr);
        CountedLoss(c, r.blocks, r.active, r.meta, addr);
      }
    }
  }

  lemma {:induction false} FreeReclaims(c: Config, r: Registry, addr: nat, layers: Mask)
    requires Roomy(r) && addr in r.blocks && r.blocks[addr].mask - layers == {}
    requires Free(c, r, addr, layers).1 != Err(ErrOutOfMemory)
    ensures r.meta + SLOT_BYTES <= c.nodeEnd
    ensures Free(c, r, addr, layers).0
            == r.(meta := r.meta + SLOT_BYTES, free := [Extent(addr, r.blocks[addr].size)] + r.free,
                  active := (r.active + WORD - 1) % WORD, blocks := r.blocks[addr := r.blocks[addr].(mask := {})])
  {
  }

  lemma {:induction false} BalancedStep(c: Config, scale: nat, k: nat, r: Registry, order: seq<nat>, op: Op)
    requires c.WellFormed() && 0 < scale && order in Orders(c, r)
    requires Disciplined(r, op) && Fits(r, op) && !Failure(Step(c, scale, k, r, op).1)
    ensures OrderAfter(c, r, order, op) in Orders(c, Step(c, scale, k, r, op).0)
  {
    match op
    case OpAlloc(size, mask, thread, chunk) => BalancedAlloc(c, r, order, size, mask, thread, chunk);
    case OpShare(addr, mask) =>
      if addr in r.blocks {
        BalancedOwners(c, r, order, addr, r.blocks[addr].mask + NormalizeMask(mask));
      }
    case OpFree(addr, layers) => BalancedFree(c, r, order, addr, layers);
    case OpReset => BalancedFresh(c);
  }

  lemma {:induction false} BalancedFresh(c: Config)
    requires c.WellFormed()
    ensures Balanced(c, Fresh(c), [])
  {
    assert Owned(map[]) == {};
  }

  /** Discipline is exactly what keeps the books: a call on a block that nobody owns unbalances them. */
  lemma {:induction false} BalancedExactlyWhenDisciplined(c: Config, scale: nat, k: nat, r: Registry, order: seq<nat>,
      op: Op)
    requires c.WellFormed() && 0 < scale && Balanced(c, r, order)
    requires Fits(r, op) && !Failure(Step(c, scale, k, r, op).1)
    ensures (exists o :: Balanced(c, Step(c, scale, k, r, op).0, o)) <==> Disciplined(r, op)
  {
    var after := Step(c, scale, k, r, op).0;
    if Disciplined(r, op) {
      BalancedStep(c, scale, k, r, order, op);
    } else {
      var addr := op.addr;
      var e := Extent(addr, r.blocks[addr].size);
      var i :| 0 <= i < |r.free| && r.free[i] == e;
      if op.OpFree? {
        assert after.free == [e] + r.free;
        assert after.free[0].addr == after.free[i + 1].addr;
      } else {
        assert after.free[i] == e && after.blocks[addr].mask != {};
      }
      assert !Stacked(after.free, after.blocks);
    }
  }

  ghost predicate NoFailure(outcomes: seq<Outcome>) {
    forall o :: o in outcomes ==> !Failure(o)
  }

  /** Over any good run with no out-of-memory error the books balance: the blocks tile the used payload,
      and with BytesAreConserved the used payload is owned bytes plus free bytes. */
  lemma {:induction false} BalancedRun(c: Config, scale: nat, k: nat, r: Registry, order: seq<nat>, ops: seq<Op>)
      returns (last: seq<nat>)
    requires c.WellFormed() && 0 < scale && Balanced(c, r, order)
    requires GoodRun(c, scale, k, r, ops) && NoFailure(Run(c, scale, k, r, ops).1)
    ensures Balanced(c, Run(c, scale, k, r, ops).0, last)
    decreases |ops|
  {
    last := order;
    if ops != [] {
      var (r1, o) := Step(c, scale, k, r, ops[0]);
      var rest := Run(c, scale, k, r1, ops[1..]).1;
      assert Run(c, scale, k, r, ops).1 == [o] + rest;
      assert o in [o] + rest;
      assert forall x :: x in rest ==> x in [o] + rest;
      BalancedStep(c, scale, k, r, order, ops[0]);
      last := BalancedRun(c, scale, k, r1, OrderAfter(c, r, order, ops[0]), ops[1..]);
    }
  }

  // ---- The metadata budget -------------------------------------------------------------------------

  /** What a call that succeeded took from the metadata region. */
  function Cost(o: Outcome): nat {
    match o
    case Allocated(_, _) => NODE_BYTES
    case Freed(last) => if last then SLOT_BYTES else 0
    case _ => 0
  }

  function Costs(outcomes: seq<Outcome>): nat {
    if outcomes == [] then 0 else Cost(outcomes[0]) + Costs(outcomes[1..])
  }

  /** Allocations and final frees between resets are paid for out of what is left of the one region; once
      the counter has passed the end of it nothing is allocated or reclaimed any more. */
  lemma {:induction false} MetadataBudget(c: Config, scale: nat, k: nat, r: Registry, ops: seq<Op>)
    requires c.WellFormed() && 0 < scale && RoomyRun(c, scale, k, r, ops) && OpReset !in ops
    ensures Costs(Run(c, scale, k, r, ops).1) <= if r.meta <= c.nodeEnd then c.nodeEnd - r.meta else 0
    decreases |ops|
  {
    if ops != [] {
      var (r1, o) := Step(c, scale, k, r, ops[0]);
      var outcomes := Run(c, scale, k, r, ops).1;
      assert outcomes[0] == o && outcomes[1..] == Run(c, scale, k, r1, ops[1..]).1;
      assert ops[0] != OpReset;
      StepCost(c, scale, k, r, ops[0]);
      MetadataBudget(c, scale, k, r1, ops[1..]);
    }
  }

  lemma {:induction false} StepCost(c: Config, scale: nat, k: nat, r: Registry, op: Op)
    requires 0 < scale && Roomy(r) && op != OpReset
    ensures var (r1, o) := Step(c, scale, k, r, op);
            && r.meta + Cost(o) <= r1.meta
            && (0 < Cost(o) ==> r1.meta <= c.nodeEnd)
            && (Failure(o) ==> c.nodeEnd < r1.meta || (op.OpAlloc? && c.payloadEnd < r1.bump))
  {
    match op
    case OpAlloc(size, mask, _, _) => TakeCost(c, r, AlignUp(size, 8), mask);
    case OpFree(addr, layers) => assert (r.meta + SLOT_BYTES) % WORD == r.meta + SLOT_BYTES;
    case OpShare(_, _) =>
  }

  lemma {:induction false} TakeCost(c: Config, r: Registry, want: nat, mask: Mask)
    requires Roomy(r)
    ensures var (r1, a) := Take(c, r, want, mask);
            && (a.Ok? ==> r1.meta == r.meta + NODE_BYTES <= c.nodeEnd)
            && (a.Err? ==> r.meta <= r1.meta && (c.nodeEnd < r1.meta || c.payloadEnd < r1.bump))
  {
    assert (r.meta + NODE_BYTES) % WORD == r.meta + NODE_BYTES;
  }

  /** Whatever fails for want of metadata, nothing is allocated or reclaimed from then on. */
  lemma {:induction false} MetadataFailureIsFinal(c: Config, scale: nat, k: nat, r: Registry, op: Op, ops: seq<Op>)
    requires c.WellFormed() && 0 < scale && RoomyRun(c, scale, k, r, [op] + ops) && OpReset !in [op] + ops
    requires Failure(Step(c, scale, k, r, op).1) && (op.OpAlloc? ==> Step(c, scale, k, r, op).0.bump <= c.payloadEnd)
    ensures Costs(Run(c, scale, k, Step(c, scale, k, r, op).0, ops).1) == 0
  {
    assert ([op] + ops)[0] == op && ([op] + ops)[1..] == ops;
    StepCost(c, scale, k, r, op);
    MetadataBudget(c, scale, k, Step(c, scale, k, r, op).0, ops);
  }

  /** A fresh super-block pays for 4096 records of 40 bytes and no more. */
  lemma {:induction false} FreshBudget(base: nat, length: nat, scale: nat, k: nat, ops: seq<Op>)
    requires 0 < base && base % 4096 == 0 && 0 < scale && OpReset !in ops
    requires base + (if length == 0 then DEFAULT_LENGTH else length) < WORD
    requires NewLayout(length, base).Ok?
    requires var c := NewLayout(length, base).value; RoomyRun(c, scale, k, Fresh(c), ops)
    ensures var c := NewLayout(length, base).value;
            Costs(Run(c, scale, k, Fresh(c), ops).1) <= 163840
  {
    var c := NewLayout(length, base).value;
    MetadataBudget(c, scale, k, Fresh(c), ops);
  }
}
