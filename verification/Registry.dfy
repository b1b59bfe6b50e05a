/** The block allocator as callers see it: a registry of blocks by address and a stack of free extents.

    The registry has no pointers.  Every operation is a function from a registry to a registry and an
    outcome, so a sequence of calls has one result.
 */
module Registry {
  import opened Words
  import opened Layout
  import opened Topology

  datatype Entry = Entry(size: nat, mask: Mask)

  datatype Extent = Extent(addr: nat, size: nat)

  /** `blocks` holds every address ever handed out since the last reset; a block nobody owns has an empty mask. */
  datatype Registry = Registry(bump: nat, meta: nat, blocks: map<nat, Entry>, free: seq<Extent>, active: nat,
      closed: bool)

  function Fresh(c: Config): Registry {
    Registry(c.payloadBase, c.nodeBase, map[], [], 0, false)
  }

  /** Owners join a block, which is new or was free. */
  function Install(blocks: map<nat, Entry>, addr: nat, size: nat, mask: Mask): map<nat, Entry> {
    blocks[addr := Entry(size, (if addr in blocks then blocks[addr].mask else {}) + NormalizeMask(mask))]
  }

  /** A block of `size` bytes at `addr` is recorded, if there is room for the record. */
  function Record(c: Config, r: Registry, addr: nat, size: nat, mask: Mask): (Registry, Result<nat>) {
    var meta := (r.meta + NODE_BYTES) % WORD;
    if meta > c.nodeEnd then (r.(meta := meta), Err(ErrOutOfMemory))
    else (r.(meta := meta, blocks := Install(r.blocks, addr, size, mask), active := (r.active + 1) % WORD), Ok(addr))
  }

  /** A block for an aligned request: the top of the free stack if it is large enough, else new payload. */
  function Take(c: Config, r: Registry, want: nat, mask: Mask): (Registry, Result<nat>) {
    if r.free != [] && r.free[0].size >= want then
      Record(c, r.(free := r.free[1..]), r.free[0].addr, r.free[0].size, mask)
    else
      var after := (r.bump + want) % WORD;
      if after > c.payloadEnd then (r.(bump := after), Err(ErrOutOfMemory))
      else Record(c, r.(bump := after), r.bump, want, mask)
  }

  function Alloc(c: Config, r: Registry, size: nat, mask: Mask): (Registry, Result<nat>) {
    if size == 0 then (r, Err(ErrInvalidSize))
    else if r.closed then (r, Err(ErrClosed))
    else Take(c, r, AlignUp(size, 8), mask)
  }

  function Share(r: Registry, addr: nat, mask: Mask): (Registry, Result<()>) {
    if addr !in r.blocks then (r, Err(ErrNotFound))
    else (r.(blocks := r.blocks[addr := r.blocks[addr].(mask := r.blocks[addr].mask + NormalizeMask(mask))]), Ok(()))
  }

  /** A block that nobody owns goes on the free stack, if there is room for the record. */
  function Reclaim(c: Config, r: Registry, addr: nat, size: nat): (Registry, Result<bool>) {
    var meta := (r.meta + SLOT_BYTES) % WORD;
    if meta > c.nodeEnd then (r.(meta := meta), Err(ErrOutOfMemory))
    else (r.(meta := meta, free := [Extent(addr, size)] + r.free, active := (r.active + WORD - 1) % WORD), Ok(true))
  }

  function Free(c: Config, r: Registry, addr: nat, layers: Mask): (Registry, Result<bool>) {
    if addr !in r.blocks then (r, Err(ErrNotFound))
    else
      var left := r.blocks[addr].mask - layers;
      var cleared := r.(blocks := r.blocks[addr := r.blocks[addr].(mask := left)]);
      if left != {} then (cleared, Ok(false)) else Reclaim(c, cleared, addr, r.blocks[addr].size)
  }

  function Reset(c: Config, r: Registry): (Registry, Result<()>) {
    if r.closed then (r, Err(ErrClosed)) else (Fresh(c), Ok(()))
  }

  // ---- Sequences of calls -------------------------------------------------------------------------

  datatype Op =
    | OpAlloc(size: nat, mask: Mask, thread: nat, chunk: nat)
    | OpShare(addr: nat, mask: Mask)
    | OpFree(addr: nat, layers: Mask)
    | OpReset

  datatype Outcome = Allocated(addr: nat, bucket: nat) | Shared | Freed(last: bool) | Done | Failed(error: Error)

  /** Arguments are 64-bit words. */
  predicate WordArgs(op: Op) {
    match op
    case OpAlloc(size, _, thread, chunk) => size < WORD && thread < WORD && chunk < WORD
    case OpShare(addr, _) => addr < WORD
    case OpFree(addr, _) => addr < WORD
    case OpReset => true
  }

  function Step(c: Config, scale: nat, k: nat, r: Registry, op: Op): (Registry, Outcome)
    requires 0 < scale
  {
    match op
    case OpAlloc(size, mask, thread, chunk) =>
      var (r1, a) := Alloc(c, r, size, mask);
      (r1, if a.Ok? then Allocated(a.value, Bucket(scale, k, thread, chunk)) else Failed(a.error))
    case OpShare(addr, mask) =>
      var (r1, a) := Share(r, addr, mask);
      (r1, if a.Ok? then Shared else Failed(a.error))
    case OpFree(addr, layers) =>
      var (r1, a) := Free(c, r, addr, layers);
      (r1, if a.Ok? then Freed(a.value) else Failed(a.error))
    case OpReset =>
      var (r1, a) := Reset(c, r);
      (r1, if a.Ok? then Done else Failed(a.error))
  }

  /** The metadata counter does not wrap around on the next operation. */
  predicate Roomy(r: Registry) {
    r.meta + NODE_BYTES < WORD
  }

  predicate RoomyRun(c: Config, scale: nat, k: nat, r: Registry, ops: seq<Op>)
    requires 0 < scale
    decreases |ops|
  {
    ops == [] || (Roomy(r) && WordArgs(ops[0]) && RoomyRun(c, scale, k, Step(c, scale, k, r, ops[0]).0, ops[1..]))
  }

  function Run(c: Config, scale: nat, k: nat, r: Registry, ops: seq<Op>): (Registry, seq<Outcome>)
    requires 0 < scale
    decreases |ops|
  {
    if ops == [] then (r, [])
    else
      var (r1, o) := Step(c, scale, k, r, ops[0]);
      var (r2, os) := Run(c, scale, k, r1, ops[1..]);
      (r2, [o] + os)
  }
}
