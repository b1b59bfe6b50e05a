/** Every answer of the registry follows from the calls made so far and what they answered. */
module RegistryAnswers {
  import opened Words
  import opened Layout
  import opened Registry
  import opened RegistryTheorems

  /** Whether the block at `addr` has been handed out since the last reset, after a call with this outcome. */
  predicate HandedNext(before: bool, op: Op, o: Outcome, addr: nat) {
    if op.OpReset? && o == Done then false else before || (o.Allocated? && o.addr == addr)
  }

  predicate HandedAfter(before: bool, ops: seq<Op>, outcomes: seq<Outcome>, addr: nat)
    requires |ops| == |outcomes|
    decreases |ops|
  {
    if ops == [] then before
    else HandedAfter(HandedNext(before, ops[0], outcomes[0], addr), ops[1..], outcomes[1..], addr)
  }

  lemma {:induction false} HandedStep(c: Config, scale: nat, k: nat, r: Registry, op: Op, addr: nat)
    requires 0 < scale
    ensures var (r1, o) := Step(c, scale, k, r, op); addr in r1.blocks <==> HandedNext(addr in r.blocks, op, o, addr)
  {
  }

  /** The registry has exactly the blocks that were handed out since the last reset. */
  lemma {:induction false} BlocksFollowTheCalls(c: Config, scale: nat, k: nat, r: Registry, ops: seq<Op>, addr: nat)
    requires 0 < scale
    ensures var (last, outcomes) := Run(c, scale, k, r, ops);
            |outcomes| == |ops| && (addr in last.blocks <==> HandedAfter(addr in r.blocks, ops, outcomes, addr))
    decreases |ops|
  {
    if ops != [] {
      var r1 := Step(c, scale, k, r, ops[0]).0;
      HandedStep(c, scale, k, r, ops[0], addr);
      BlocksFollowTheCalls(c, scale, k, r1, ops[1..], addr);
      var outcomes := Run(c, scale, k, r, ops).1;
      assert outcomes[1..] == Run(c, scale, k, r1, ops[1..]).1;
    }
  }

  /** The answer of a call is that of the registry after the calls before it. */
  lemma {:induction false} AnswerAt(c: Config, scale: nat, k: nat, r: Registry, ops: seq<Op>, n: nat)
    requires 0 < scale && n < |ops|
    ensures var (before, outcomes) := Run(c, scale, k, r, ops[..n]);
            var all := Run(c, scale, k, r, ops).1;
            && |all| == |ops| && all[..n] == outcomes
            && all[n] == Step(c, scale, k, before, ops[n]).1
            && Run(c, scale, k, r, ops[..n + 1]) == (Step(c, scale, k, before, ops[n]).0, all[..n + 1])
    decreases n
  {
    var (r1, o) := Step(c, scale, k, r, ops[0]);
    var all, rest := Run(c, scale, k, r, ops).1, Run(c, scale, k, r1, ops[1..]).1;
    assert all == [o] + rest;
    Lengths(c, scale, k, r1, ops[1..]);
    if n == 0 {
      assert ops[..1][1..] == [] && ops[..1][0] == ops[0] && ops[..0] == [];
      assert Run(c, scale, k, r1, ops[..1][1..]) == (r1, []) && [o] + [] == [o];
      assert Run(c, scale, k, r, ops[..1]) == (r1, [o]);
      assert all[..1] == [o];
    } else {
      AnswerAt(c, scale, k, r1, ops[1..], n - 1);
      assert ops[..n][1..] == ops[1..][..n - 1] && ops[..n + 1][1..] == ops[1..][..n];
      assert all[..n] == [o] + rest[..n - 1] && all[..n + 1] == [o] + rest[..n];
    }
  }

  lemma {:induction false} Lengths(c: Config, scale: nat, k: nat, r: Registry, ops: seq<Op>)
    requires 0 < scale
    ensures |Run(c, scale, k, r, ops).1| == |ops|
    decreases |ops|
  {
    if ops != [] { Lengths(c, scale, k, Step(c, scale, k, r, ops[0]).0, ops[1..]); }
  }

  // ---- Answers ---------------------------------------------------------------------------------------------

  /** What a share answers: it succeeds exactly on a block that was handed out. */
  predicate ShareAnswer(handed: bool, o: Outcome) {
    o == if handed then Shared else Failed(ErrNotFound)
  }

  /** What a free answers: an unknown block is not found; a block with owners left is not freed; a block without
      is freed, unless there is no room to put it on the free list. */
  predicate FreeAnswer(handed: bool, left: bool, full: bool, o: Outcome) {
    o == if !handed then Failed(ErrNotFound) else if left then Freed(false) else if full then Failed(ErrOutOfMemory)
         else Freed(true)
  }

  /** Some owner of the block at `addr` is left, by the calls and outcomes alone. */
  ghost predicate SomebodyOwns(ops: seq<Op>, outcomes: seq<Outcome>, addr: nat)
    requires |ops| == |outcomes|
  {
    exists bit: nat :: OwnsAfter(false, ops, outcomes, addr, bit)
  }

  /** There is no room for a free slot. */
  predicate SlotsFull(c: Config, r: Registry) {
    (r.meta + SLOT_BYTES) % WORD > c.nodeEnd
  }

  lemma {:induction false} OwnersLeft(c: Config, scale: nat, k: nat, ops: seq<Op>, addr: nat)
    requires 0 < scale
    ensures var (r, outcomes) := Run(c, scale, k, Fresh(c), ops);
            && |outcomes| == |ops|
            && (SomebodyOwns(ops, outcomes, addr) <==> addr in r.blocks && r.blocks[addr].mask != {})
  {
    var (r, outcomes) := Run(c, scale, k, Fresh(c), ops);
    Lengths(c, scale, k, Fresh(c), ops);
    if SomebodyOwns(ops, outcomes, addr) {
      var bit: nat :| OwnsAfter(false, ops, outcomes, addr, bit);
      OwnersFollowTheCalls(c, scale, k, Fresh(c), ops, addr, bit);
    }
    if addr in r.blocks && r.blocks[addr].mask != {} {
      var bit :| bit in r.blocks[addr].mask;
      OwnersFollowTheCalls(c, scale, k, Fresh(c), ops, addr, bit);
      assert OwnsAfter(false, ops, outcomes, addr, bit);
    }
  }

  /** In every run from a fresh allocator shares and frees answer as the calls and outcomes before them say; only
      whether there is room for a free slot is not to be seen from those. */
  lemma {:induction false} AnswersFollowTheCalls(c: Config, scale: nat, k: nat, ops: seq<Op>, n: nat)
    requires 0 < scale && n < |ops| && (ops[n].OpShare? || ops[n].OpFree?)
    ensures var outcomes := Run(c, scale, k, Fresh(c), ops).1;
            && |outcomes| == |ops|
            && var handed := HandedAfter(false, ops[..n], outcomes[..n], ops[n].addr);
               if ops[n].OpShare? then ShareAnswer(handed, outcomes[n])
               else FreeAnswer(handed, SomebodyOwns(ops[..n + 1], outcomes[..n + 1], ops[n].addr),
                               SlotsFull(c, Run(c, scale, k, Fresh(c), ops[..n]).0), outcomes[n])
  {
    var addr := ops[n].addr;
    AnswerAt(c, scale, k, Fresh(c), ops, n);
    BlocksFollowTheCalls(c, scale, k, Fresh(c), ops[..n], addr);
    OwnersLeft(c, scale, k, ops[..n + 1], addr);
  }

  /** What an allocation answers: the errors in the source's order, else a block that is large enough, the one on
      top of the free stack or one cut to the aligned size from the payload. */
  lemma {:induction false} AllocAnswers(c: Config, r: Registry, size: nat, mask: Mask)
    requires r.bump + size + 8 < WORD && Roomy(r)
    ensures var (r1, a) := Alloc(c, r, size, mask);
            var fits := r.free != [] && r.free[0].size >= AlignUp(size, 8);
            && (size == 0 ==> a == Err(ErrInvalidSize) && r1 == r)
            && (size != 0 && r.closed ==> a == Err(ErrClosed) && r1 == r)
            && (size != 0 && !r.closed ==>
                  if r.meta + NODE_BYTES > c.nodeEnd || (!fits && r.bump + AlignUp(size, 8) > c.payloadEnd)
                  then a == Err(ErrOutOfMemory) && r1.blocks == r.blocks
                  else && a.Ok? && a.value in r1.blocks && size <= r1.blocks[a.value].size
                       && NormalizeMask(mask) <= r1.blocks[a.value].mask
                       && (a.value, r1.blocks[a.value].size)
                          == if fits then (r.free[0].addr, r.free[0].size) else (r.bump, AlignUp(size, 8)))
  {
    assert (r.meta + NODE_BYTES) % WORD == r.meta + NODE_BYTES;
    assert (r.bump + AlignUp(size, 8)) % WORD == r.bump + AlignUp(size, 8);
  }

  // ---- The counter of active blocks ------------------------------------------------------------------------

  /** Blocks handed out less blocks freed for good since the last reset, by the outcomes alone. */
  function ActiveAfter(before: int, ops: seq<Op>, outcomes: seq<Outcome>): int
    requires |ops| == |outcomes|
    decreases |ops|
  {
    if ops == [] then before else ActiveAfter(ActiveNext(before, ops[0], outcomes[0]), ops[1..], outcomes[1..])
  }

  function ActiveNext(before: int, op: Op, o: Outcome): int {
    if op.OpReset? && o == Done then 0
    else before + (if o.Allocated? then 1 else 0) - (if o == Freed(true) then 1 else 0)
  }

  lemma {:induction false} ActiveStep(c: Config, scale: nat, k: nat, r: Registry, op: Op, count: int)
    requires 0 < scale && r.active == count % WORD
    ensures var (r1, o) := Step(c, scale, k, r, op); r1.active == ActiveNext(count, op, o) % WORD
  {
    OneUp(count);
  }

  lemma {:induction false} OneUp(count: int)
    ensures (count % WORD + 1) % WORD == (count + 1) % WORD
    ensures (count % WORD + WORD - 1) % WORD == (count - 1) % WORD
  {
  }

  /** The counter is the number of allocations less the number of final frees, in 64 bits. */
  lemma {:induction false} ActiveFollowsTheCalls(c: Config, scale: nat, k: nat, r: Registry, ops: seq<Op>, count: int)
    requires 0 < scale && r.active == count % WORD
    ensures var (last, outcomes) := Run(c, scale, k, r, ops);
            |outcomes| == |ops| && last.active == ActiveAfter(count, ops, outcomes) % WORD
    decreases |ops|
  {
    if ops != [] {
      var (r1, o) := Step(c, scale, k, r, ops[0]);
      ActiveStep(c, scale, k, r, ops[0], count);
      ActiveFollowsTheCalls(c, scale, k, r1, ops[1..], ActiveNext(count, ops[0], o));
      var outcomes := Run(c, scale, k, r, ops).1;
      assert outcomes[1..] == Run(c, scale, k, r1, ops[1..]).1;
    }
  }

  // ---- What a new super-block is good for --------------------------------------------------------------------

  /** The aligned bytes of allocations only. */
  function Aligned8(ops: seq<Op>): nat {
    if ops == [] then 0 else (if ops[0].OpAlloc? then AlignUp(ops[0].size, 8) else 0) + Aligned8(ops[1..])
  }

  predicate AllocsOnly(ops: seq<Op>) {
    forall i :: 0 <= i < |ops| ==> ops[i].OpAlloc? && 0 < ops[i].size && ops[i].size + 8 <= WORD
  }

  lemma {:induction false} ServedOne(c: Config, r: Registry, size: nat, mask: Mask)
    requires c.WellFormed() && 0 < size && size + 8 <= WORD && r.free == [] && !r.closed
    requires r.meta + NODE_BYTES <= c.nodeEnd && r.bump + AlignUp(size, 8) <= c.payloadEnd
    ensures var (r1, a) := Alloc(c, r, size, mask);
            && a == Ok(r.bump) && r1.free == [] && !r1.closed
            && r1.meta == r.meta + NODE_BYTES && r1.bump == r.bump + AlignUp(size, 8)
  {
    assert (r.bump + AlignUp(size, 8)) % WORD == r.bump + AlignUp(size, 8);
    assert (r.meta + NODE_BYTES) % WORD == r.meta + NODE_BYTES;
  }

  lemma {:induction false} AllServed(c: Config, scale: nat, k: nat, r: Registry, ops: seq<Op>)
    requires c.WellFormed() && 0 < scale && AllocsOnly(ops) && r.free == [] && !r.closed
    requires r.meta + NODE_BYTES * |ops| <= c.nodeEnd && r.bump + Aligned8(ops) <= c.payloadEnd
    ensures var outcomes := Run(c, scale, k, r, ops).1;
            |outcomes| == |ops| && forall i :: 0 <= i < |outcomes| ==> outcomes[i].Allocated?
    decreases |ops|
  {
    if ops != [] {
      ServedOne(c, r, ops[0].size, ops[0].mask);
      AllServed(c, scale, k, Step(c, scale, k, r, ops[0]).0, ops[1..]);
    }
  }

  /** A new super-block serves any 4096 allocations whose bytes fit the payload. */
  lemma {:induction false} FreshServes(base: nat, length: nat, scale: nat, k: nat, ops: seq<Op>)
    requires 0 < base && base % 4096 == 0 && 0 < scale
    requires base + (if length == 0 then DEFAULT_LENGTH else length) < WORD && NewLayout(length, base).Ok?
    requires AllocsOnly(ops) && |ops| <= 4096
    requires Aligned8(ops) <= (if length == 0 then 67108864 else length) - 163840
    ensures var outcomes := Run(NewLayout(length, base).value, scale, k,
                                Fresh(NewLayout(length, base).value), ops).1;
            |outcomes| == |ops| && forall i :: 0 <= i < |outcomes| ==> outcomes[i].Allocated?
  {
    var c := NewLayout(length, base).value;
    AllServed(c, scale, k, Fresh(c), ops);
  }
}
