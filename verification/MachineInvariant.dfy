/** The invariant of the concurrent block allocator, and the view of a state that it is stated over.

    A view names what the raw records amount to: the shape of the tree, the chain of the free list,
    the extents cut from the payload so far and who each extent belongs to.  No move reads a view.
 */
module MachineInvariant {
  import opened Words
  import opened Layout
  import opened SearchTree
  import opened FreeStack
  import opened Machine

  /** An extent is granted, on the free list, in the hands of one thread, or lost because there was
      no room for a metadata record. */
  datatype Status = Live(grant: nat) | Free | Busy(thread: nat) | Lost

  datatype View = View(shape: Shape, chain: seq<Ptr>, ext: map<nat, nat>, st: map<nat, Status>)

  // ---- Metadata -------------------------------------------------------------------------------

  predicate RecordIn(c: Config, p: Ptr, bytes: nat, nodeBump: nat) {
    c.nodeBase <= p && p + bytes <= nodeBump && p + bytes <= c.nodeEnd
  }

  /** Records lie in the metadata region, below the counter, and do not overlap. */
  ghost predicate MetaInv(c: Config, nodes: Nodes, slots: Slots, nodeBump: nat) {
    && c.nodeBase <= nodeBump
    && (forall p {:trigger RecordIn(c, p, NODE_BYTES, nodeBump)} :: p in nodes ==> RecordIn(c, p, NODE_BYTES, nodeBump))
    && (forall p {:trigger RecordIn(c, p, SLOT_BYTES, nodeBump)} :: p in slots ==> RecordIn(c, p, SLOT_BYTES, nodeBump))
    && (forall p, q {:trigger Apart(p, NODE_BYTES, q, NODE_BYTES)} ::
          p in nodes && q in nodes && p != q ==> Apart(p, NODE_BYTES, q, NODE_BYTES))
    && (forall p, q {:trigger Apart(p, SLOT_BYTES, q, SLOT_BYTES)} ::
          p in slots && q in slots && p != q ==> Apart(p, SLOT_BYTES, q, SLOT_BYTES))
    && (forall p, q {:trigger Apart(p, NODE_BYTES, q, SLOT_BYTES)} ::
          p in nodes && q in slots ==> Apart(p, NODE_BYTES, q, SLOT_BYTES))
    && c.nodeBase + NODE_BYTES * |nodes| + SLOT_BYTES * |slots| <= nodeBump
    && NODE_BYTES * |nodes| + SLOT_BYTES * |slots| <= c.nodeEnd - c.nodeBase
  }

  // ---- The tree -------------------------------------------------------------------------------

  ghost predicate LostOnce(root: Ptr, nodes: Nodes, lost: seq<Link>) {
    && Distinct(lost)
    && forall l :: l in lost ==> LinkValue(root, nodes, l) != NIL
  }

  ghost predicate InsertionOk(root: Ptr, nodes: Nodes, shape: Shape, ins: Insertion) {
    && ins.node in nodes
    && ins.node != NIL
    && ins.node !in Ptrs(shape)
    && nodes[ins.node].left == NIL
    && nodes[ins.node].right == NIL
    && nodes[ins.node].addr < WORD
    && LostOnce(root, nodes, ins.lost)
  }

  ghost predicate Linked(nodes: Nodes, shape: Shape, p: Ptr, k: nat) {
    p in Ptrs(shape) && p in nodes && nodes[p].addr == k
  }

  predicate MustFind(q: Search) {
    q.ForLookup? ==> q.present
  }

  /** What a thread knows about the tree where it stands. */
  ghost predicate TreePc(root: Ptr, nodes: Nodes, shape: Shape, pc: Pc) {
    match pc
    case InsRoot(ins) => InsertionOk(root, nodes, shape, ins)
    case InsRootCas(ins) => InsertionOk(root, nodes, shape, ins) && RootLink !in ins.lost
    case InsAt(ins, cur) =>
      InsertionOk(root, nodes, shape, ins) && OnPath(nodes, shape, nodes[ins.node].addr, cur)
    case InsCas(ins, cur) =>
      && InsertionOk(root, nodes, shape, ins)
      && OnPath(nodes, shape, nodes[ins.node].addr, cur)
      && cur in nodes && nodes[cur].addr != nodes[ins.node].addr
      && LinkFor(nodes[cur], cur, nodes[ins.node].addr) !in ins.lost
    case InsMerge(ins, cur) =>
      InsertionOk(root, nodes, shape, ins) && Linked(nodes, shape, cur, nodes[ins.node].addr)
    case Inc(_, addr, _) => HasKey(nodes, shape, addr)
    case FindRoot(q) => MustFind(q) ==> HasKey(nodes, shape, q.addr)
    case FindAt(q, cur) =>
      && OnPath(nodes, shape, q.addr, cur)
      && (MustFind(q) ==> HasKey(nodes, shape, q.addr))
    case Looked(addr, present, found) => (present ==> found) && (found ==> HasKey(nodes, shape, addr))
    case ShareOr(q, cur) => q.ForShare? && Linked(nodes, shape, cur, q.addr)
    case ClearLoad(q, cur) => q.ForFree? && Linked(nodes, shape, cur, q.addr)
    case ClearCas(q, cur, _) => q.ForFree? && Linked(nodes, shape, cur, q.addr)
    case NewSlot(cur) => cur in Ptrs(shape) && cur in nodes
    case _ => true
  }

  /** The record an insertion has made and not yet linked, or nil. */
  function PrivateNode(pc: Pc): Ptr {
    if pc.InsRoot? || pc.InsRootCas? || pc.InsAt? || pc.InsCas? || pc.InsMerge? then pc.ins.node else NIL
  }

  ghost predicate TreeInv(root: Ptr, nodes: Nodes, shape: Shape, inserted: set<nat>, pcs: map<nat, Pc>) {
    && Rep(nodes, root, shape, -1, WORD)
    && (forall k :: k in inserted <==> HasKey(nodes, shape, k))
    && (forall t {:trigger TreePc(root, nodes, shape, pcs[t])} :: t in pcs ==> TreePc(root, nodes, shape, pcs[t]))
    && (forall t, u {:trigger PrivateNode(pcs[t]), PrivateNode(pcs[u])} ::
          t in pcs && u in pcs && t != u && PrivateNode(pcs[t]) != NIL ==>
          PrivateNode(pcs[t]) != PrivateNode(pcs[u]))
  }

  // ---- The free list ----------------------------------------------------------------------------

  /** The record a push has in hand, or nil. */
  function PrivateSlot(pc: Pc): Ptr {
    if pc.PushHead? || pc.PushLink? || pc.PushCas? then pc.slot else NIL
  }

  ghost predicate ListPc(slots: Slots, chain: seq<Ptr>, pc: Pc) {
    && (pc.PopNext? || pc.PopCas? ==> pc.top in slots)
    && (pc.PushHead? || pc.PushLink? || pc.PushCas? ==> pc.slot != NIL && pc.slot in slots && pc.slot !in chain)
    && (pc.PushCas? ==> SlotAt(slots, pc.slot).next == pc.seenTop)
  }

  ghost predicate ListInv(head: Ptr, slots: Slots, chain: seq<Ptr>, pcs: map<nat, Pc>) {
    && Chain(slots, head, chain)
    && Distinct(chain)
    && (forall t {:trigger ListPc(slots, chain, pcs[t])} :: t in pcs ==> ListPc(slots, chain, pcs[t]))
    && (forall t, u {:trigger PrivateSlot(pcs[t]), PrivateSlot(pcs[u])} ::
          t in pcs && u in pcs && t != u && PrivateSlot(pcs[t]) != NIL ==>
          PrivateSlot(pcs[t]) != PrivateSlot(pcs[u]))
  }

  // ---- Extents and who they belong to -----------------------------------------------------------

  ghost predicate ExtInv(c: Config, bump: nat, ext: map<nat, nat>) {
    && c.payloadBase <= bump
    && bump % 8 == 0
    && (forall a :: a in ext ==>
          && c.payloadBase <= a
          && a % 8 == 0
          && 0 < ext[a]
          && ext[a] % 8 == 0
          && a + ext[a] <= bump
          && a + ext[a] <= c.payloadEnd)
    && (forall a, b {:trigger Apart(a, ext[a], b, ext[b])} :: a in ext && b in ext && a != b ==>
        Apart(a, ext[a], b, ext[b]))
  }

  /** The extent a thread has in hand, or 0. */
  function Owned(nodes: Nodes, slots: Slots, pc: Pc): nat {
    match pc
    case NewNode(_, _, addr, _) => addr
    case InsRoot(ins) => NodeAt(nodes, ins.node).addr
    case InsRootCas(ins) => NodeAt(nodes, ins.node).addr
    case InsAt(ins, _) => NodeAt(nodes, ins.node).addr
    case InsCas(ins, _) => NodeAt(nodes, ins.node).addr
    case InsMerge(ins, _) => NodeAt(nodes, ins.node).addr
    case Inc(_, addr, _) => addr
    case NewSlot(cur) => NodeAt(nodes, cur).addr
    case PushHead(_, slot) => SlotAt(slots, slot).addr
    case PushLink(_, slot, _) => SlotAt(slots, slot).addr
    case PushCas(_, slot, _) => SlotAt(slots, slot).addr
    case _ => 0
  }

  ghost predicate Has(ext: map<nat, nat>, st: map<nat, Status>, t: nat, a: nat) {
    a in ext && a in st && st[a] == Busy(t)
  }

  /** What a thread knows about the extent it has in hand, or about the grant its call is for. */
  ghost predicate BlockPc(nodes: Nodes, slots: Slots, ext: map<nat, nat>, st: map<nat, Status>, t: nat, pc: Pc) {
    match pc
    case PopHead(want, _) => 0 < want && want % 8 == 0
    case PopNext(want, _, _) => 0 < want && want % 8 == 0
    case PopCas(want, _, _, _) => 0 < want && want % 8 == 0
    case Bump(want, _) => 0 < want && want % 8 == 0
    case NewNode(want, _, addr, size) => Has(ext, st, t, addr) && ext[addr] == size && 0 < want <= size
    case InsRoot(ins) => InsertionOwns(nodes, ext, st, t, ins)
    case InsRootCas(ins) => InsertionOwns(nodes, ext, st, t, ins)
    case InsAt(ins, _) => InsertionOwns(nodes, ext, st, t, ins)
    case InsCas(ins, _) => InsertionOwns(nodes, ext, st, t, ins)
    case InsMerge(ins, _) => InsertionOwns(nodes, ext, st, t, ins)
    case Inc(want, addr, mask) => Has(ext, st, t, addr) && 0 < want <= ext[addr] && mask != {}
    case NewSlot(cur) => Has(ext, st, t, NodeAt(nodes, cur).addr)
    case PushHead(push, slot) => PushOwns(slots, ext, st, t, push, slot)
    case PushLink(push, slot, _) => PushOwns(slots, ext, st, t, push, slot)
    case PushCas(push, slot, _) => PushOwns(slots, ext, st, t, push, slot)
    case _ => true
  }

  ghost predicate InsertionOwns(nodes: Nodes, ext: map<nat, nat>, st: map<nat, Status>, t: nat, ins: Insertion) {
    var n := NodeAt(nodes, ins.node);
    Has(ext, st, t, n.addr) && ext[n.addr] == n.size && 0 < ins.want <= n.size && n.mask != {}
  }

  ghost predicate PushOwns(slots: Slots, ext: map<nat, nat>, st: map<nat, Status>, t: nat, push: Push, slot: Ptr) {
    && Has(ext, st, t, SlotAt(slots, slot).addr)
    && ext[SlotAt(slots, slot).addr] == SlotAt(slots, slot).size
    && (push.Repush? ==> 0 < push.want && push.want % 8 == 0)
  }

  /** The mask a record shows, given who the extent belongs to. */
  ghost predicate MaskOk(mask: Mask, owner: Status, live: map<nat, Grant>, pcs: map<nat, Pc>) {
    match owner
    case Live(g) => g in live && live[g].held <= mask
    case Busy(t) => t in pcs && mask == if pcs[t].Inc? then pcs[t].mask else {}
    case Free => mask == {}
    case Lost => mask == {}
  }

  ghost predicate SlotFree(slots: Slots, ext: map<nat, nat>, st: map<nat, Status>, p: Ptr) {
    var slot := SlotAt(slots, p);
    slot.addr in ext && slot.addr in st && st[slot.addr] == Free && ext[slot.addr] == slot.size
  }

  /** Extents on the free list are free, and each is there once. */
  ghost predicate ChainBlocks(slots: Slots, chain: seq<Ptr>, ext: map<nat, nat>, st: map<nat, Status>) {
    && (forall p {:trigger SlotFree(slots, ext, st, p)} :: p in chain ==> SlotFree(slots, ext, st, p))
    && (forall p, q {:trigger SlotAt(slots, p), SlotAt(slots, q)} ::
          p in chain && q in chain && p != q ==> SlotAt(slots, p).addr != SlotAt(slots, q).addr)
  }

  ghost predicate NodeOk(n: Node, ext: map<nat, nat>, st: map<nat, Status>, live: map<nat, Grant>, pcs: map<nat, Pc>) {
    && n.addr in ext
    && n.addr in st
    && n.size == ext[n.addr]
    && MaskOk(n.mask, st[n.addr], live, pcs)
  }

  /** Linked records describe extents, with the right size and a mask that fits the owner. */
  ghost predicate NodeBlocks(nodes: Nodes, shape: Shape, ext: map<nat, nat>, st: map<nat, Status>,
                             live: map<nat, Grant>, pcs: map<nat, Pc>) {
    forall p {:trigger NodeOk(nodes[p], ext, st, live, pcs)} ::
      p in Ptrs(shape) && p in nodes ==> NodeOk(nodes[p], ext, st, live, pcs)
  }

  ghost predicate GrantOk(nextGrant: nat, inserted: set<nat>, ext: map<nat, nat>, st: map<nat, Status>, g: nat,
      b: Grant) {
    && g < nextGrant
    && b.addr in ext
    && b.addr in st
    && b.addr in inserted
    && st[b.addr] == Live(g)
    && b.want <= ext[b.addr]
  }

  ghost predicate LiveOk(st: map<nat, Status>, live: map<nat, Grant>, a: nat) {
    a in st && st[a].Live? ==> st[a].grant in live && live[st[a].grant].addr == a
  }

  ghost predicate GrantsInv(nextGrant: nat, inserted: set<nat>, ext: map<nat, nat>, st: map<nat, Status>,
                            live: map<nat, Grant>) {
    && (forall g {:trigger GrantOk(nextGrant, inserted, ext, st, g, live[g])} ::
          g in live ==> GrantOk(nextGrant, inserted, ext, st, g, live[g]))
    && (forall a {:trigger LiveOk(st, live, a)} :: LiveOk(st, live, a))
  }

  /** A call in progress on a grant has bits of its own, and they are set in the block's mask. */
  ghost predicate CallOk(nodes: Nodes, shape: Shape, live: map<nat, Grant>, pc: Pc) {
    Committed(pc) ==>
      && pc.search.grant in live
      && live[pc.search.grant].addr == pc.search.addr
      && Uses(pc.search) !! live[pc.search.grant].held
      && Engaged(pc.search) != {}
      && forall p :: Linked(nodes, shape, p, pc.search.addr) ==> Engaged(pc.search) <= nodes[p].mask
  }

  ghost predicate CallsInv(nodes: Nodes, shape: Shape, live: map<nat, Grant>, pcs: map<nat, Pc>) {
    && (forall t {:trigger CallOk(nodes, shape, live, pcs[t])} :: t in pcs ==> CallOk(nodes, shape, live, pcs[t]))
    && (forall t, u {:trigger Uses(pcs[t].search), Uses(pcs[u].search)} ::
          t in pcs && u in pcs && t != u && Committed(pcs[t]) && Committed(pcs[u])
          && pcs[t].search.grant == pcs[u].search.grant ==>
          Uses(pcs[t].search) !! Uses(pcs[u].search))
  }

  ghost predicate BusyOk(nodes: Nodes, slots: Slots, st: map<nat, Status>, pcs: map<nat, Pc>, a: nat) {
    a in st && st[a].Busy? ==> st[a].thread in pcs && Owned(nodes, slots, pcs[st[a].thread]) == a
  }

  ghost predicate OwnersInv(nodes: Nodes, slots: Slots, ext: map<nat, nat>, st: map<nat, Status>, pcs: map<nat, Pc>) {
    && st.Keys == ext.Keys
    && (forall t {:trigger BlockPc(nodes, slots, ext, st, t, pcs[t])} ::
          t in pcs ==> BlockPc(nodes, slots, ext, st, t, pcs[t]))
    && (forall a {:trigger BusyOk(nodes, slots, st, pcs, a)} :: BusyOk(nodes, slots, st, pcs, a))
  }

  ghost predicate Inv(c: Config, s: State, v: View) {
    && c.WellFormed()
    && MetaInv(c, s.nodes, s.slots, s.nodeBump)
    && TreeInv(s.root, s.nodes, v.shape, s.inserted, s.pcs)
    && ListInv(s.head, s.slots, v.chain, s.pcs)
    && ExtInv(c, s.bump, v.ext)
    && OwnersInv(s.nodes, s.slots, v.ext, v.st, s.pcs)
    && ChainBlocks(s.slots, v.chain, v.ext, v.st)
    && NodeBlocks(s.nodes, v.shape, v.ext, v.st, s.live, s.pcs)
    && GrantsInv(s.nextGrant, s.inserted, v.ext, v.st, s.live)
    && CallsInv(s.nodes, v.shape, s.live, s.pcs)
  }

  /** The views under which a state is in order. */
  ghost function Views(c: Config, s: State): iset<View> {
    iset v | Inv(c, s, v)
  }

  ghost predicate Good(c: Config, s: State) {
    exists v :: v in Views(c, s)
  }

  // ---- The invariant is what callers rely on, and more --------------------------------------------

  lemma {:induction false} GrantsApart(c: Config, bump: nat, nextGrant: nat, inserted: set<nat>, ext: map<nat, nat>,
                    st: map<nat, Status>, live: map<nat, Grant>)
    requires ExtInv(c, bump, ext) && GrantsInv(nextGrant, inserted, ext, st, live)
    ensures forall g, h :: g in live && h in live && g != h ==>
              Apart(live[g].addr, live[g].want, live[h].addr, live[h].want)
  {
    forall g, h | g in live && h in live && g != h
      ensures Apart(live[g].addr, live[g].want, live[h].addr, live[h].want)
    {
      assert GrantOk(nextGrant, inserted, ext, st, g, live[g]) && GrantOk(nextGrant, inserted, ext, st, h, live[h]);
      assert Apart(live[g].addr, ext[live[g].addr], live[h].addr, ext[live[h].addr]);
    }
  }

  lemma {:induction false} GrantApartFromFree(c: Config, bump: nat, nextGrant: nat, inserted: set<nat>, slots: Slots,
      chain: seq<Ptr>, ext: map<nat, nat>, st: map<nat, Status>, live: map<nat, Grant>, g: nat, p: Ptr)
    requires ExtInv(c, bump, ext) && GrantsInv(nextGrant, inserted, ext, st, live) && ChainBlocks(slots, chain, ext, st)
    requires g in live && p in chain && p in slots
    ensures Apart(live[g].addr, live[g].want, slots[p].addr, slots[p].size)
  {
    assert slots[p] == SlotAt(slots, p);
    assert SlotFree(slots, ext, st, p) && GrantOk(nextGrant, inserted, ext, st, g, live[g]);
    assert Apart(live[g].addr, ext[live[g].addr], slots[p].addr, ext[slots[p].addr]);
  }

  lemma {:induction false} InvSafe(c: Config, s: State, v: View)
    requires Inv(c, s, v)
    ensures Safe(c, s)
  {
    assert ListOnce(s.slots, s.head, v.chain);
    GrantsApart(c, s.bump, s.nextGrant, s.inserted, v.ext, v.st, s.live);
    assert forall g :: g in s.live ==> GrantOk(s.nextGrant, s.inserted, v.ext, v.st, g, s.live[g]);
    forall g, p | g in s.live && OnFreeList(s, p) && p in s.slots
      ensures Apart(s.live[g].addr, s.live[g].want, s.slots[p].addr, s.slots[p].size)
    {
      var chain :| Chain(s.slots, s.head, chain) && p in chain;
      ChainUnique(s.slots, s.head, chain, v.chain);
      GrantApartFromFree(c, s.bump, s.nextGrant, s.inserted, s.slots, v.chain, v.ext, v.st, s.live, g, p);
    }
  }
}
