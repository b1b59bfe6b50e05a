/** The block allocator as a concurrent machine.

    Any number of threads run Alloc, Share and FreeVarying.  Each move performs one atomic load,
    store, compare-and-swap, or or add of the source; a plain write to a record that no other thread
    can reach yet is folded into the atomic operation before it.  `Do` is deterministic, so a run is
    the list of moves that a scheduler and the callers choose.
 */
module Machine {
  import opened Words
  import opened Layout
  import opened SearchTree
  import opened FreeStack

  /** A block handed to callers and not finally released: where it is, how many bytes were asked
      for, and the owner bits that callers hold and have not committed to a call in progress. */
  datatype Grant = Grant(addr: nat, want: nat, held: Mask)

  datatype Link = RootLink | ChildLink(parent: Ptr, right: bool)

  /** An insertion in progress: the links whose compare-and-swap it has lost so far are recorded. */
  datatype Insertion = Insertion(want: nat, node: Ptr, lost: seq<Link>)

  datatype Search =
    | ForShare(grant: nat, addr: nat, hold: nat, bits: Mask)
    | ForFree(grant: nat, addr: nat, bits: Mask)
    | ForLookup(addr: nat, present: bool)

  /** Why a slot is being pushed: it was popped and found too small, or its block was released. */
  datatype Push = Repush(want: nat, mask: Mask) | Release

  datatype Pc =
    | Idle
    // popFree
    | PopHead(want: nat, mask: Mask)
    | PopNext(want: nat, mask: Mask, top: Ptr)
    | PopCas(want: nat, mask: Mask, top: Ptr, next: Ptr)
    // pushFree
    | PushHead(push: Push, slot: Ptr)
    | PushLink(push: Push, slot: Ptr, seenTop: Ptr)
    | PushCas(push: Push, slot: Ptr, seenTop: Ptr)
    // Alloc
    | Bump(want: nat, mask: Mask)
    | NewNode(want: nat, mask: Mask, addr: nat, size: nat)
    | Inc(want: nat, addr: nat, mask: Mask)
    // insertNode and insertBelow
    | InsRoot(ins: Insertion)
    | InsRootCas(ins: Insertion)
    | InsAt(ins: Insertion, cur: Ptr)
    | InsCas(ins: Insertion, cur: Ptr)
    | InsMerge(ins: Insertion, cur: Ptr)
    // findNode, then the body of Share or FreeVarying
    | FindRoot(search: Search)
    | FindAt(search: Search, cur: Ptr)
    | Looked(addr: nat, present: bool, found: bool)
    | ShareOr(search: Search, cur: Ptr)
    | ClearLoad(search: Search, cur: Ptr)
    | ClearCas(search: Search, cur: Ptr, seen: Mask)
    | NewSlot(cur: Ptr)
    | Dec

  datatype State = State(
    root: Ptr, nodes: Nodes, head: Ptr, slots: Slots, bump: nat, nodeBump: nat, active: int,
    pcs: map<nat, Pc>,
    // What callers know: the grants, and the addresses inserted so far.
    live: map<nat, Grant>, nextGrant: nat, inserted: set<nat>)

  datatype Call =
    | CallAlloc(size: nat, mask: Mask)
    | CallShare(grant: nat, hold: nat, bits: Mask)
    | CallFree(grant: nat, bits: Mask)
    | CallLookup(addr: nat)

  datatype Move = Start(thread: nat, call: Call) | Run(thread: nat)

  function Initial(c: Config, threads: set<nat>): State {
    State(NIL, map[], NIL, map[], c.payloadBase, c.nodeBase, 0, map t | t in threads :: Idle, map[], 0, {})
  }

  // ---- Reading raw memory -------------------------------------------------------------------

  function NodeAt(nodes: Nodes, p: Ptr): Node {
    if p in nodes then nodes[p] else Node(0, 0, {}, NIL, NIL)
  }

  function SlotAt(slots: Slots, p: Ptr): Slot {
    if p in slots then slots[p] else Slot(0, 0, NIL)
  }

  function LinkValue(root: Ptr, nodes: Nodes, l: Link): Ptr {
    match l
    case RootLink => root
    case ChildLink(p, right) => if right then NodeAt(nodes, p).right else NodeAt(nodes, p).left
  }

  function LinkFor(n: Node, cur: Ptr, k: nat): Link {
    ChildLink(cur, !(k < n.addr))
  }

  // ---- What callers may do ------------------------------------------------------------------

  /** The owner bits a call in progress has been entrusted with, on the block of `grant`. */
  function Uses(q: Search): Mask {
    match q
    case ForShare(_, _, hold, bits) => {hold} + bits
    case ForFree(_, _, bits) => bits
    case ForLookup(_, _) => {}
  }

  /** The part of those bits that is set in the block's mask. */
  function Engaged(q: Search): Mask {
    match q
    case ForShare(_, _, hold, _) => {hold}
    case ForFree(_, _, bits) => bits
    case ForLookup(_, _) => {}
  }

  predicate Committed(pc: Pc) {
    (pc.FindRoot? || pc.FindAt? || pc.ShareOr? || pc.ClearLoad? || pc.ClearCas?) && !pc.search.ForLookup?
  }

  predicate CommittedTo(pc: Pc, g: nat) {
    Committed(pc) && pc.search.grant == g
  }

  /** The discipline callers keep.  A release gives up a non-empty set of bits the caller holds; a
      share is made by a holder and adds bits that nobody holds or is about to hold. */
  ghost predicate Allowed(s: State, call: Call) {
    match call
    case CallAlloc(size, _) => 0 < size <= WORD - 8
    case CallShare(g, hold, bits) =>
      && g in s.live
      && hold in s.live[g].held
      && NormalizeMask(bits) !! s.live[g].held
      && forall t :: t in s.pcs && CommittedTo(s.pcs[t], g) ==> NormalizeMask(bits) !! Uses(s.pcs[t].search)
    case CallFree(g, bits) => g in s.live && bits != {} && bits <= s.live[g].held
    case CallLookup(_) => true
  }

  /** No counter wraps around on this move. */
  predicate NoWrap(s: State, t: nat)
    requires t in s.pcs
  {
    match s.pcs[t]
    case Bump(want, _) => s.bump + want < WORD
    case NewNode(_, _, _, _) => s.nodeBump + NODE_BYTES < WORD
    case NewSlot(_) => s.nodeBump + SLOT_BYTES < WORD
    case _ => true
  }

  ghost predicate Legal(s: State, m: Move) {
    && m.thread in s.pcs
    && match m
       case Start(t, call) => s.pcs[t].Idle? && Allowed(s, call)
       case Run(t) => !s.pcs[t].Idle? && NoWrap(s, t)
  }

  // ---- The moves ----------------------------------------------------------------------------

  function Goto(s: State, t: nat, pc: Pc): State {
    s.(pcs := s.pcs[t := pc])
  }

  function TakeHeld(s: State, g: nat, bits: Mask): State {
    if g in s.live then s.(live := s.live[g := s.live[g].(held := s.live[g].held - bits)]) else s
  }

  function GiveHeld(s: State, g: nat, bits: Mask): State {
    if g in s.live then s.(live := s.live[g := s.live[g].(held := s.live[g].held + bits)]) else s
  }

  function Begin(s: State, t: nat, call: Call): State {
    match call
    case CallAlloc(size, mask) => Goto(s, t, PopHead(AlignUp(size, 8), mask))
    case CallShare(g, hold, bits) =>
      var addr := if g in s.live then s.live[g].addr else 0;
      Goto(TakeHeld(s, g, {hold}), t, FindRoot(ForShare(g, addr, hold, NormalizeMask(bits))))
    case CallFree(g, bits) =>
      var addr := if g in s.live then s.live[g].addr else 0;
      Goto(TakeHeld(s, g, bits), t, FindRoot(ForFree(g, addr, bits)))
    case CallLookup(addr) => Goto(s, t, FindRoot(ForLookup(addr, addr in s.inserted)))
  }

  function AfterPush(p: Push): Pc {
    match p
    case Repush(want, mask) => Bump(want, mask)
    case Release => Dec
  }

  function Inserted(s: State, t: nat, ins: Insertion): State {
    var n := NodeAt(s.nodes, ins.node);
    Goto(s.(inserted := s.inserted + {n.addr}), t, Inc(ins.want, n.addr, n.mask))
  }

  function Miss(s: State, t: nat, q: Search): State {
    match q
    case ForShare(g, _, hold, _) => Goto(GiveHeld(s, g, {hold}), t, Idle)
    case ForFree(g, _, bits) => Goto(GiveHeld(s, g, bits), t, Idle)
    case ForLookup(addr, present) => Goto(s, t, Looked(addr, present, false))
  }

  function Hit(s: State, t: nat, q: Search, cur: Ptr): State {
    match q
    case ForShare(_, _, _, _) => Goto(s, t, ShareOr(q, cur))
    case ForFree(_, _, _) => Goto(s, t, ClearLoad(q, cur))
    case ForLookup(addr, present) => Goto(s, t, Looked(addr, present, true))
  }

  function WithMask(nodes: Nodes, p: Ptr, mask: Mask): Nodes {
    nodes[p := NodeAt(nodes, p).(mask := mask)]
  }

  function DoPopCas(s: State, t: nat, pc: Pc): State
    requires pc.PopCas?
  {
    if s.head != pc.top then Goto(s, t, PopHead(pc.want, pc.mask))
    else
      var slot := SlotAt(s.slots, pc.top);
      Goto(s.(head := pc.next), t,
           if slot.size >= pc.want then NewNode(pc.want, pc.mask, slot.addr, slot.size)
           else PushHead(Repush(pc.want, pc.mask), pc.top))
  }

  function DoPushCas(s: State, t: nat, pc: Pc): State
    requires pc.PushCas?
  {
    if s.head != pc.seenTop then Goto(s, t, PushHead(pc.push, pc.slot))
    else Goto(s.(head := pc.slot), t, AfterPush(pc.push))
  }

  function DoBump(c: Config, s: State, t: nat, pc: Pc): State
    requires pc.Bump?
  {
    var after := (s.bump + pc.want) % WORD;
    Goto(s.(bump := after), t, if after > c.payloadEnd then Idle else NewNode(pc.want, pc.mask, s.bump, pc.want))
  }

  function DoNewNode(c: Config, s: State, t: nat, pc: Pc): State
    requires pc.NewNode?
  {
    var raw := s.nodeBump;
    var after := (raw + NODE_BYTES) % WORD;
    if after > c.nodeEnd then Goto(s.(nodeBump := after), t, Idle)
    else Goto(s.(nodeBump := after, nodes := s.nodes[raw := Node(pc.addr, pc.size, NormalizeMask(pc.mask), NIL, NIL)]),
              t, InsRoot(Insertion(pc.want, raw, [])))
  }

  function DoNewSlot(c: Config, s: State, t: nat, pc: Pc): State
    requires pc.NewSlot?
  {
    var raw := s.nodeBump;
    var after := (raw + SLOT_BYTES) % WORD;
    var n := NodeAt(s.nodes, pc.cur);
    if after > c.nodeEnd then Goto(s.(nodeBump := after), t, Idle)
    else Goto(s.(nodeBump := after, slots := s.slots[raw := Slot(n.addr, n.size, NIL)]), t, PushHead(Release, raw))
  }

  function DoInsRootCas(s: State, t: nat, pc: Pc): State
    requires pc.InsRootCas?
  {
    if s.root != NIL then Goto(s, t, InsRoot(pc.ins.(lost := pc.ins.lost + [RootLink])))
    else Inserted(s.(root := pc.ins.node), t, pc.ins)
  }

  function DoInsAt(s: State, t: nat, pc: Pc): State
    requires pc.InsAt?
  {
    var n := NodeAt(s.nodes, pc.ins.node);
    var x := NodeAt(s.nodes, pc.cur);
    if n.addr == x.addr then Goto(s.(nodes := s.nodes[pc.cur := x.(size := n.size)]), t, InsMerge(pc.ins, pc.cur))
    else if Child(x, n.addr) == NIL then Goto(s, t, InsCas(pc.ins, pc.cur))
    else Goto(s, t, InsAt(pc.ins, Child(x, n.addr)))
  }

  function DoInsCas(s: State, t: nat, pc: Pc): State
    requires pc.InsCas?
  {
    var n := NodeAt(s.nodes, pc.ins.node);
    var x := NodeAt(s.nodes, pc.cur);
    if Child(x, n.addr) != NIL then
      Goto(s, t, InsAt(pc.ins.(lost := pc.ins.lost + [LinkFor(x, pc.cur, n.addr)]), pc.cur))
    else Inserted(s.(nodes := s.nodes[pc.cur := WithChild(x, n.addr, pc.ins.node)]), t, pc.ins)
  }

  function DoInsMerge(s: State, t: nat, pc: Pc): State
    requires pc.InsMerge?
  {
    var n := NodeAt(s.nodes, pc.ins.node);
    Goto(s.(nodes := WithMask(s.nodes, pc.cur, NodeAt(s.nodes, pc.cur).mask + n.mask)),
         t, Inc(pc.ins.want, n.addr, n.mask))
  }

  function DoInc(s: State, t: nat, pc: Pc): State
    requires pc.Inc?
  {
    Goto(s.(active := s.active + 1, nextGrant := s.nextGrant + 1,
            live := s.live[s.nextGrant := Grant(pc.addr, pc.want, pc.mask)]), t, Idle)
  }

  function DoFindAt(s: State, t: nat, pc: Pc): State
    requires pc.FindAt?
  {
    var x := NodeAt(s.nodes, pc.cur);
    if pc.search.addr == x.addr then Hit(s, t, pc.search, pc.cur)
    else if Child(x, pc.search.addr) == NIL then Miss(s, t, pc.search)
    else Goto(s, t, FindAt(pc.search, Child(x, pc.search.addr)))
  }

  function DoShareOr(s: State, t: nat, pc: Pc): State
    requires pc.ShareOr?
  {
    if !pc.search.ForShare? then Goto(s, t, Idle)
    else
      var s1 := s.(nodes := WithMask(s.nodes, pc.cur, NodeAt(s.nodes, pc.cur).mask + pc.search.bits));
      Goto(GiveHeld(s1, pc.search.grant, {pc.search.hold} + pc.search.bits), t, Idle)
  }

  function DoClearCas(s: State, t: nat, pc: Pc): State
    requires pc.ClearCas?
  {
    if !pc.search.ForFree? then Goto(s, t, Idle)
    else if NodeAt(s.nodes, pc.cur).mask != pc.seen then Goto(s, t, ClearLoad(pc.search, pc.cur))
    else
      var remaining := pc.seen - pc.search.bits;
      var s1 := s.(nodes := WithMask(s.nodes, pc.cur, remaining));
      if remaining != {} then Goto(s1, t, Idle)
      else Goto(s1.(live := s1.live - {pc.search.grant}), t, NewSlot(pc.cur))
  }

  /** One atomic operation of thread `t`, wherever it stands. */
  function Exec(c: Config, s: State, t: nat): State
    requires t in s.pcs
  {
    var pc := s.pcs[t];
    match pc
    case Idle => s
    case PopHead(want, mask) =>
      Goto(s, t, if s.head == NIL then Bump(want, mask) else PopNext(want, mask, s.head))
    case PopNext(want, mask, top) => Goto(s, t, PopCas(want, mask, top, SlotAt(s.slots, top).next))
    case PopCas(_, _, _, _) => DoPopCas(s, t, pc)
    case PushHead(push, slot) => Goto(s, t, PushLink(push, slot, s.head))
    case PushLink(push, slot, top) =>
      Goto(s.(slots := s.slots[slot := SlotAt(s.slots, slot).(next := top)]), t, PushCas(push, slot, top))
    case PushCas(_, _, _) => DoPushCas(s, t, pc)
    case Bump(_, _) => DoBump(c, s, t, pc)
    case NewNode(_, _, _, _) => DoNewNode(c, s, t, pc)
    case Inc(_, _, _) => DoInc(s, t, pc)
    case InsRoot(ins) => Goto(s, t, if s.root == NIL then InsRootCas(ins) else InsAt(ins, s.root))
    case InsRootCas(_) => DoInsRootCas(s, t, pc)
    case InsAt(_, _) => DoInsAt(s, t, pc)
    case InsCas(_, _) => DoInsCas(s, t, pc)
    case InsMerge(_, _) => DoInsMerge(s, t, pc)
    case FindRoot(q) => if s.root == NIL then Miss(s, t, q) else Goto(s, t, FindAt(q, s.root))
    case FindAt(_, _) => DoFindAt(s, t, pc)
    case Looked(_, _, _) => Goto(s, t, Idle)
    case ShareOr(_, _) => DoShareOr(s, t, pc)
    case ClearLoad(q, cur) => Goto(s, t, ClearCas(q, cur, NodeAt(s.nodes, cur).mask))
    case ClearCas(_, _, _) => DoClearCas(s, t, pc)
    case NewSlot(_) => DoNewSlot(c, s, t, pc)
    case Dec => Goto(s.(active := s.active - 1), t, Idle)
  }

  ghost function Do(c: Config, s: State, m: Move): State
    requires m.thread in s.pcs
  {
    match m
    case Start(t, call) => Begin(s, t, call)
    case Run(t) => Exec(c, s, t)
  }

  // ---- Runs -----------------------------------------------------------------------------------

  /** Every move of the run is legal where it is made. */
  ghost predicate LegalRun(c: Config, s: State, moves: seq<Move>)
    decreases |moves|
  {
    moves == [] || (Legal(s, moves[0]) && LegalRun(c, Do(c, s, moves[0]), moves[1..]))
  }

  ghost function After(c: Config, s: State, moves: seq<Move>): State
    requires LegalRun(c, s, moves)
    decreases |moves|
  {
    if moves == [] then s else After(c, Do(c, s, moves[0]), moves[1..])
  }

  /** Popping is about to succeed with a next pointer that is no longer the top's. */
  predicate StalePop(s: State, m: Move)
    requires m.thread in s.pcs
  {
    && m.Run?
    && s.pcs[m.thread].PopCas?
    && s.head == s.pcs[m.thread].top
    && SlotAt(s.slots, s.head).next != s.pcs[m.thread].next
  }

  /** Popping is about to take a slot that is smaller than the request. */
  predicate MisfitPop(s: State, m: Move)
    requires m.thread in s.pcs
  {
    && m.Run?
    && s.pcs[m.thread].PopCas?
    && s.head == s.pcs[m.thread].top
    && SlotAt(s.slots, s.head).size < s.pcs[m.thread].want
  }

  ghost predicate NoStalePops(c: Config, s: State, moves: seq<Move>)
    requires LegalRun(c, s, moves)
    decreases |moves|
  {
    moves != [] ==> !StalePop(s, moves[0]) && NoStalePops(c, Do(c, s, moves[0]), moves[1..])
  }

  ghost predicate NoMisfitPops(c: Config, s: State, moves: seq<Move>)
    requires LegalRun(c, s, moves)
    decreases |moves|
  {
    moves != [] ==> !MisfitPop(s, moves[0]) && NoMisfitPops(c, Do(c, s, moves[0]), moves[1..])
  }

  /** The address range of a record on the free list, if `p` is one. */
  ghost predicate OnFreeList(s: State, p: Ptr) {
    exists chain :: Chain(s.slots, s.head, chain) && p in chain
  }

  predicate Apart(a: nat, n: nat, b: nat, m: nat) {
    a + n <= b || b + m <= a
  }

  /** The free list ends, and has each record and each address once. */
  ghost predicate ListOnce(slots: Slots, head: Ptr, chain: seq<Ptr>) {
    && Chain(slots, head, chain)
    && Distinct(chain)
    && forall p, q :: p in chain && q in chain && p != q ==> SlotAt(slots, p).addr != SlotAt(slots, q).addr
  }

  /** What callers rely on: grants are aligned, inside the payload, pairwise apart, and apart from
      every extent on the free list, which is a list that has each free block once. */
  ghost predicate Safe(c: Config, s: State) {
    && (exists chain :: ListOnce(s.slots, s.head, chain))
    && (forall g :: g in s.live ==>
          && s.live[g].addr % 8 == 0
          && c.payloadBase <= s.live[g].addr
          && s.live[g].addr + s.live[g].want <= c.payloadEnd)
    && (forall g, h :: g in s.live && h in s.live && g != h ==>
          Apart(s.live[g].addr, s.live[g].want, s.live[h].addr, s.live[h].want))
    && (forall g, p :: g in s.live && OnFreeList(s, p) && p in s.slots ==>
          Apart(s.live[g].addr, s.live[g].want, s.slots[p].addr, s.slots[p].size))
  }
}
