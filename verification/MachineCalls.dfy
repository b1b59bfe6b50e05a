/** The moves that insert, search, share and release, one by one: each keeps the invariant. */
module MachineCalls {
  import opened Words
  import opened Layout
  import opened SearchTree
  import opened FreeStack
  import opened Machine
  import opened MachineInvariant
  import opened MachineSteps
  import opened MachineMoves

  // ---- newNode and newFreeSlot, when there is room ---------------------------------------------------

  lemma {:induction false} NodeUnknown(root: Ptr, a: Nodes, shape: Shape, inserted: set<nat>, pcs: map<nat, Pc>,
      raw: Ptr)
    requires TreeInv(root, a, shape, inserted, pcs) && raw !in a && raw != NIL
    ensures raw !in Ptrs(shape)
    ensures forall t :: t in pcs ==> PrivateNode(pcs[t]) != raw
  {
    RepBounds(a, root, shape, -1, WORD);
    forall t | t in pcs ensures PrivateNode(pcs[t]) != raw { assert TreePc(root, a, shape, pcs[t]); }
  }

  lemma {:induction false} SlotUnknown(head: Ptr, slots: Slots, chain: seq<Ptr>, pcs: map<nat, Pc>, raw: Ptr)
    requires ListInv(head, slots, chain, pcs) && raw !in slots && raw != NIL
    ensures raw !in chain
    ensures forall t :: t in pcs ==> PrivateSlot(pcs[t]) != raw
  {
    ChainIn(slots, head, chain);
    forall t | t in pcs ensures PrivateSlot(pcs[t]) != raw { assert ListPc(slots, chain, pcs[t]); }
  }

  lemma {:induction false} BeginInsert(c: Config, s: State, v: View, t: nat, pc: Pc, raw: Ptr)
    requires v in Views(c, s) && t in s.pcs && s.pcs[t] == pc && pc.NewNode?
    requires raw != NIL && raw in s.nodes && raw !in Ptrs(v.shape)
    requires forall u :: u in s.pcs ==> PrivateNode(s.pcs[u]) != raw
    requires s.nodes[raw] == Node(pc.addr, pc.size, NormalizeMask(pc.mask), NIL, NIL)
    ensures Good(c, Goto(s, t, InsRoot(Insertion(pc.want, raw, []))))
  {
    assert BlockPc(s.nodes, s.slots, v.ext, v.st, t, pc);
    assert pc.addr + v.ext[pc.addr] <= c.payloadEnd;
    var to := InsRoot(Insertion(pc.want, raw, []));
    StandStill(c, s, v, t, to);
    assert v in Views(c, Goto(s, t, to));
  }

  lemma {:induction false} StepNewNode(c: Config, s: State, v: View, t: nat, pc: Pc)
    requires v in Views(c, s) && t in s.pcs && s.pcs[t] == pc && pc.NewNode? && s.nodeBump + NODE_BYTES <= c.nodeEnd
    ensures Good(c, Goto(s.(nodes := s.nodes[s.nodeBump := Node(pc.addr, pc.size, NormalizeMask(pc.mask), NIL, NIL)],
                            nodeBump := s.nodeBump + NODE_BYTES), t, InsRoot(Insertion(pc.want, s.nodeBump, []))))
  {
    var n := Node(pc.addr, pc.size, NormalizeMask(pc.mask), NIL, NIL);
    MetaNewNode(c, s.nodes, s.slots, s.nodeBump, n);
    NodeUnknown(s.root, s.nodes, v.shape, s.inserted, s.pcs, s.nodeBump);
    AddNode(c, s, v, n);
    BeginInsert(c, s.(nodes := s.nodes[s.nodeBump := n], nodeBump := s.nodeBump + NODE_BYTES), v, t, pc, s.nodeBump);
  }

  lemma {:induction false} BeginPush(c: Config, s: State, v: View, t: nat, pc: Pc, raw: Ptr)
    requires v in Views(c, s) && t in s.pcs && s.pcs[t] == pc && pc.NewSlot?
    requires raw != NIL && raw in s.slots && raw !in v.chain
    requires forall u :: u in s.pcs ==> PrivateSlot(s.pcs[u]) != raw
    requires s.slots[raw] == Slot(NodeAt(s.nodes, pc.cur).addr, NodeAt(s.nodes, pc.cur).size, NIL)
    ensures Good(c, Goto(s, t, PushHead(Release, raw)))
  {
    assert BlockPc(s.nodes, s.slots, v.ext, v.st, t, pc);
    assert TreePc(s.root, s.nodes, v.shape, pc);
    assert NodeOk(s.nodes[pc.cur], v.ext, v.st, s.live, s.pcs);
    StandStill(c, s, v, t, PushHead(Release, raw));
    assert v in Views(c, Goto(s, t, PushHead(Release, raw)));
  }

  lemma {:induction false} StepNewSlot(c: Config, s: State, v: View, t: nat, pc: Pc)
    requires v in Views(c, s) && t in s.pcs && s.pcs[t] == pc && pc.NewSlot? && s.nodeBump + SLOT_BYTES <= c.nodeEnd
    ensures Good(c,
            Goto(s.(slots :=
                s.slots[s.nodeBump := Slot(NodeAt(s.nodes, pc.cur).addr, NodeAt(s.nodes, pc.cur).size, NIL)],
                            nodeBump := s.nodeBump + SLOT_BYTES), t, PushHead(Release, s.nodeBump)))
  {
    var n := Slot(NodeAt(s.nodes, pc.cur).addr, NodeAt(s.nodes, pc.cur).size, NIL);
    MetaNewSlot(c, s.nodes, s.slots, s.nodeBump, n);
    SlotUnknown(s.head, s.slots, v.chain, s.pcs, s.nodeBump);
    AddSlot(c, s, v, n);
    BeginPush(c, s.(slots := s.slots[s.nodeBump := n], nodeBump := s.nodeBump + SLOT_BYTES), v, t, pc, s.nodeBump);
  }

  // ---- The last step of Alloc: the block is granted --------------------------------------------------------

  lemma {:induction false} GrantsNew(nextGrant: nat, inserted: set<nat>, ext: map<nat, nat>, st: map<nat, Status>,
      live: map<nat, Grant>, a: nat, b: Grant)
    requires GrantsInv(nextGrant, inserted, ext, st, live) && a in st && a in ext && !st[a].Live?
    requires b.addr == a && a in inserted && b.want <= ext[a]
    ensures nextGrant !in live
    ensures GrantsInv(nextGrant + 1, inserted, ext, st[a := Live(nextGrant)], live[nextGrant := b])
  {
    var after, more := st[a := Live(nextGrant)], live[nextGrant := b];
    assert nextGrant in live ==> GrantOk(nextGrant, inserted, ext, st, nextGrant, live[nextGrant]);
    forall g | g in more ensures GrantOk(nextGrant + 1, inserted, ext, after, g, more[g]) {
      if g in live { assert GrantOk(nextGrant, inserted, ext, st, g, live[g]); }
    }
    forall x | x in after ensures LiveOk(after, more, x) { assert LiveOk(st, live, x); }
  }

  lemma {:induction false} CallsNewGrant(nodes: Nodes, shape: Shape, live: map<nat, Grant>, pcs: map<nat, Pc>, g: nat,
      b: Grant)
    requires CallsInv(nodes, shape, live, pcs) && g !in live
    ensures CallsInv(nodes, shape, live[g := b], pcs)
  {
    forall t | t in pcs ensures CallOk(nodes, shape, live[g := b], pcs[t]) {
      assert CallOk(nodes, shape, live, pcs[t]);
    }
  }

  lemma {:induction false} NodesGranted(nodes: Nodes, shape: Shape, ext: map<nat, nat>, st: map<nat, Status>,
      live: map<nat, Grant>, pcs: map<nat, Pc>, t: nat, pc: Pc, g: nat)
    requires NodeBlocks(nodes, shape, ext, st, live, pcs) && t in pcs && pcs[t] == pc && pc.Inc?
    requires pc.addr in st && st[pc.addr] == Busy(t) && g !in live
    requires forall b :: b in st && b != pc.addr ==> st[b] != Busy(t)
    ensures NodeBlocks(nodes, shape, ext, st[pc.addr := Live(g)], live[g := Grant(pc.addr, pc.want, pc.mask)],
            pcs[t := Idle])
  {
    var more := live[g := Grant(pc.addr, pc.want, pc.mask)];
    forall p | Linked(nodes, shape, p, pc.addr) ensures MaskOk(nodes[p].mask, Live(g), more, pcs[t := Idle]) {
      assert NodeOk(nodes[p], ext, st, live, pcs);
    }
    NodesChange(nodes, shape, ext, st, live, more, pcs, t, pc.addr, Live(g), Idle);
  }

  lemma {:induction false} CallsGranted(nodes: Nodes, shape: Shape, live: map<nat, Grant>, pcs: map<nat, Pc>, t: nat,
      g: nat, b: Grant)
    requires CallsInv(nodes, shape, live, pcs) && t in pcs && g !in live
    ensures CallsInv(nodes, shape, live[g := b], pcs[t := Idle])
  {
    CallsMove(nodes, shape, live, pcs, t, Idle);
    CallsNewGrant(nodes, shape, live, pcs[t := Idle], g, b);
  }

  lemma {:induction false} OwnersGranted(c: Config, bump: nat, nodes: Nodes, slots: Slots, ext: map<nat, nat>,
      st: map<nat, Status>, pcs: map<nat, Pc>, t: nat, pc: Pc, g: nat)
    requires c.WellFormed() && ExtInv(c, bump, ext) && OwnersInv(nodes, slots, ext, st, pcs)
    requires t in pcs && pcs[t] == pc && pc.Inc?
    ensures Has(ext, st, t, pc.addr) && 0 < pc.want <= ext[pc.addr]
    ensures forall b :: b in st && b != pc.addr ==> st[b] != Busy(t)
    ensures OwnersInv(nodes, slots, ext, st[pc.addr := Live(g)], pcs[t := Idle])
  {
    assert BlockPc(nodes, slots, ext, st, t, pc);
    NoExtentAtZero(c, bump, nodes, slots, ext, st, pcs);
    OnlyInHand(nodes, slots, ext, st, pcs, t);
    OwnersChange(nodes, slots, ext, st, pcs, t, pc.addr, Live(g), Idle);
  }

  /** The parts of the invariant that say who owns what. */
  lemma {:induction false} IncOwners(c: Config, s: State, v: View, t: nat, pc: Pc)
    requires v in Views(c, s) && t in s.pcs && s.pcs[t] == pc && pc.Inc?
    ensures var st, live := v.st[pc.addr := Live(s.nextGrant)], s.live[s.nextGrant := Grant(pc.addr, pc.want, pc.mask)];
            && OwnersInv(s.nodes, s.slots, v.ext, st, s.pcs[t := Idle])
            && GrantsInv(s.nextGrant + 1, s.inserted, v.ext, st, live)
            && ChainBlocks(s.slots, v.chain, v.ext, st)
            && NodeBlocks(s.nodes, v.shape, v.ext, st, live, s.pcs[t := Idle])
            && CallsInv(s.nodes, v.shape, live, s.pcs[t := Idle])
            && TreeInv(s.root, s.nodes, v.shape, s.inserted, s.pcs[t := Idle])
            && ListInv(s.head, s.slots, v.chain, s.pcs[t := Idle])
  {
    var a, b := pc.addr, Grant(pc.addr, pc.want, pc.mask);
    assert TreePc(s.root, s.nodes, v.shape, pc);
    OwnersGranted(c, s.bump, s.nodes, s.slots, v.ext, v.st, s.pcs, t, pc, s.nextGrant);
    GrantsNew(s.nextGrant, s.inserted, v.ext, v.st, s.live, a, b);
    ChainBlocksChange(s.slots, v.chain, v.ext, v.st, a, Live(s.nextGrant));
    NodesGranted(s.nodes, v.shape, v.ext, v.st, s.live, s.pcs, t, pc, s.nextGrant);
    CallsGranted(s.nodes, v.shape, s.live, s.pcs, t, s.nextGrant, b);
    TreeMove(s.root, s.nodes, v.shape, s.inserted, s.pcs, t, Idle);
    ListMove(s.head, s.slots, v.chain, s.pcs, t, Idle);
  }

  lemma {:induction false} StepInc(c: Config, s: State, v: View, t: nat, pc: Pc)
    requires v in Views(c, s) && t in s.pcs && s.pcs[t] == pc && pc.Inc?
    ensures Good(c, DoInc(s, t, pc))
  {
    IncOwners(c, s, v, t, pc);
    var s1, v1 := DoInc(s, t, pc), v.(st := v.st[pc.addr := Live(s.nextGrant)]);
    assert s1.pcs == s.pcs[t := Idle] && s1.live == s.live[s.nextGrant := Grant(pc.addr, pc.want, pc.mask)];
    assert Inv(c, s1, v1);
    assert v.(st := v.st[pc.addr := Live(s.nextGrant)]) in Views(c, DoInc(s, t, pc));
  }

  // ---- insertNode and insertBelow ---------------------------------------------------------------------------

  lemma {:induction false} LinkNotLost(root: Ptr, nodes: Nodes, lost: seq<Link>, l: Link)
    requires LostOnce(root, nodes, lost) && LinkValue(root, nodes, l) == NIL
    ensures l !in lost
  {
  }

  lemma {:induction false} LoseLink(root: Ptr, nodes: Nodes, shape: Shape, ins: Insertion, l: Link)
    requires InsertionOk(root, nodes, shape, ins) && l !in ins.lost && LinkValue(root, nodes, l) != NIL
    ensures InsertionOk(root, nodes, shape, ins.(lost := ins.lost + [l]))
  {
  }

  lemma {:induction false} StepInsRoot(c: Config, s: State, v: View, t: nat, pc: Pc)
    requires v in Views(c, s) && t in s.pcs && s.pcs[t] == pc && pc.InsRoot?
    ensures Good(c, Goto(s, t, if s.root == NIL then InsRootCas(pc.ins) else InsAt(pc.ins, s.root)))
  {
    assert TreePc(s.root, s.nodes, v.shape, pc) && BlockPc(s.nodes, s.slots, v.ext, v.st, t, pc);
    if s.root == NIL {
      LinkNotLost(s.root, s.nodes, pc.ins.lost, RootLink);
      StandGood(c, s, v, t, InsRootCas(pc.ins));
    } else {
      StandGood(c, s, v, t, InsAt(pc.ins, s.root));
    }
  }

  lemma {:induction false} StepInsRootLose(c: Config, s: State, v: View, t: nat, pc: Pc)
    requires v in Views(c, s) && t in s.pcs && s.pcs[t] == pc && pc.InsRootCas? && s.root != NIL
    ensures Good(c, Goto(s, t, InsRoot(pc.ins.(lost := pc.ins.lost + [RootLink]))))
  {
    assert TreePc(s.root, s.nodes, v.shape, pc) && BlockPc(s.nodes, s.slots, v.ext, v.st, t, pc);
    LoseLink(s.root, s.nodes, v.shape, pc.ins, RootLink);
    StandGood(c, s, v, t, InsRoot(pc.ins.(lost := pc.ins.lost + [RootLink])));
  }

  lemma {:induction false} StepInsLose(c: Config, s: State, v: View, t: nat, pc: Pc)
    requires v in Views(c, s) && t in s.pcs && s.pcs[t] == pc && pc.InsCas?
    requires Child(NodeAt(s.nodes, pc.cur), NodeAt(s.nodes, pc.ins.node).addr) != NIL
    ensures Good(c,
            Goto(s, t, InsAt(pc.ins.(lost :=
                pc.ins.lost + [LinkFor(NodeAt(s.nodes, pc.cur), pc.cur, NodeAt(s.nodes, pc.ins.node).addr)]), pc.cur)))
  {
    assert TreePc(s.root, s.nodes, v.shape, pc) && BlockPc(s.nodes, s.slots, v.ext, v.st, t, pc);
    var l := LinkFor(NodeAt(s.nodes, pc.cur), pc.cur, NodeAt(s.nodes, pc.ins.node).addr);
    LoseLink(s.root, s.nodes, v.shape, pc.ins, l);
    StandGood(c, s, v, t, InsAt(pc.ins.(lost := pc.ins.lost + [l]), pc.cur));
  }

  lemma {:induction false} StepInsDescend(c: Config, s: State, v: View, t: nat, pc: Pc)
    requires v in Views(c, s) && t in s.pcs && s.pcs[t] == pc && pc.InsAt?
    requires NodeAt(s.nodes, pc.ins.node).addr != NodeAt(s.nodes, pc.cur).addr
    ensures var k := NodeAt(s.nodes, pc.ins.node).addr;
            var next := Child(NodeAt(s.nodes, pc.cur), k);
            Good(c, Goto(s, t, if next == NIL then InsCas(pc.ins, pc.cur) else InsAt(pc.ins, next)))
  {
    var next := Child(NodeAt(s.nodes, pc.cur), NodeAt(s.nodes, pc.ins.node).addr);
    var to := if next == NIL then InsCas(pc.ins, pc.cur) else InsAt(pc.ins, next);
    Descends(s.root, s.nodes, v.shape, s.inserted, s.pcs, t, pc);
    assert BlockPc(s.nodes, s.slots, v.ext, v.st, t, pc);
    StandGood(c, s, v, t, to);
  }

  /** Where the insertion goes next, it is still on the path of its address. */
  lemma {:induction false} Descends(root: Ptr, nodes: Nodes, shape: Shape, inserted: set<nat>, pcs: map<nat, Pc>,
                                    t: nat, pc: Pc)
    requires TreeInv(root, nodes, shape, inserted, pcs) && t in pcs && pcs[t] == pc && pc.InsAt?
    requires NodeAt(nodes, pc.ins.node).addr != NodeAt(nodes, pc.cur).addr
    ensures var next := Child(NodeAt(nodes, pc.cur), NodeAt(nodes, pc.ins.node).addr);
            TreePc(root, nodes, shape, if next == NIL then InsCas(pc.ins, pc.cur) else InsAt(pc.ins, next))
  {
    assert TreePc(root, nodes, shape, pc);
    var k := NodeAt(nodes, pc.ins.node).addr;
    OnPathIn(nodes, shape, k, pc.cur);
    if Child(NodeAt(nodes, pc.cur), k) == NIL {
      LinkNotLost(root, nodes, pc.ins.lost, LinkFor(nodes[pc.cur], pc.cur, k));
    } else {
      OnPathStep(nodes, root, shape, -1, WORD, k, pc.cur);
    }
  }

  /** Storing the size of a reused block stores the size that is there. */
  lemma {:induction false} SameSize(root: Ptr, nodes: Nodes, shape: Shape, slots: Slots, ext: map<nat, nat>,
      st: map<nat, Status>, live: map<nat, Grant>, pcs: map<nat, Pc>, t: nat, pc: Pc)
    requires TreePc(root, nodes, shape, pc) && BlockPc(nodes, slots, ext, st, t, pc) && pc.InsAt?
    requires NodeBlocks(nodes, shape, ext, st, live, pcs)
    requires NodeAt(nodes, pc.ins.node).addr == NodeAt(nodes, pc.cur).addr
    ensures nodes[pc.cur := NodeAt(nodes, pc.cur).(size := NodeAt(nodes, pc.ins.node).size)] == nodes
    ensures Linked(nodes, shape, pc.cur, nodes[pc.ins.node].addr)
  {
    OnPathIn(nodes, shape, nodes[pc.ins.node].addr, pc.cur);
    assert NodeOk(nodes[pc.cur], ext, st, live, pcs);
  }

  lemma {:induction false} StepInsSize(c: Config, s: State, v: View, t: nat, pc: Pc)
    requires v in Views(c, s) && t in s.pcs && s.pcs[t] == pc && pc.InsAt?
    requires NodeAt(s.nodes, pc.ins.node).addr == NodeAt(s.nodes, pc.cur).addr
    ensures Good(c,
            Goto(s.(nodes := s.nodes[pc.cur := NodeAt(s.nodes, pc.cur).(size := NodeAt(s.nodes, pc.ins.node).size)]),
                         t, InsMerge(pc.ins, pc.cur)))
  {
    assert TreePc(s.root, s.nodes, v.shape, pc) && BlockPc(s.nodes, s.slots, v.ext, v.st, t, pc);
    SameSize(s.root, s.nodes, v.shape, s.slots, v.ext, v.st, s.live, s.pcs, t, pc);
    StandGood(c, s, v, t, InsMerge(pc.ins, pc.cur));
  }

  // ---- Installing a record, or merging into one ---------------------------------------------------------------

  /** Nothing but the records of address `k` differs; those have the mask and size of the block being installed. */
  ghost predicate OnlyAt(a: Nodes, b: Nodes, shape: Shape, grown: Shape, k: nat, size: nat, mask: Mask) {
    forall p {:trigger p in Ptrs(grown)} :: p in Ptrs(grown) && p in b ==>
      if b[p].addr == k then b[p].size == size && b[p].mask == mask
      else p in Ptrs(shape) && p in a && a[p].addr == b[p].addr && a[p].size == b[p].size && a[p].mask == b[p].mask
  }

  lemma {:induction false} NodesInstall(a: Nodes, b: Nodes, shape: Shape, grown: Shape, ext: map<nat, nat>,
      st: map<nat, Status>, live: map<nat, Grant>, pcs: map<nat, Pc>, t: nat, to: Pc)
    requires NodeBlocks(a, shape, ext, st, live, pcs) && t in pcs && to.Inc?
    requires Has(ext, st, t, to.addr)
    requires forall x :: x in st && x != to.addr ==> st[x] != Busy(t)
    requires OnlyAt(a, b, shape, grown, to.addr, ext[to.addr], to.mask)
    ensures NodeBlocks(b, grown, ext, st, live, pcs[t := to])
  {
    forall p | p in Ptrs(grown) && p in b ensures NodeOk(b[p], ext, st, live, pcs[t := to]) {
      if b[p].addr != to.addr { assert NodeOk(a[p], ext, st, live, pcs); }
    }
  }

  lemma {:induction false} NoCallOn(nodes: Nodes, shape: Shape, nextGrant: nat, inserted: set<nat>, ext: map<nat, nat>,
      st: map<nat, Status>, live: map<nat, Grant>, pcs: map<nat, Pc>, k: nat)
    requires CallsInv(nodes, shape, live, pcs) && GrantsInv(nextGrant, inserted, ext, st, live)
    requires k in st && !st[k].Live?
    ensures forall u :: u in pcs && Committed(pcs[u]) ==> pcs[u].search.addr != k
  {
    forall u | u in pcs && Committed(pcs[u]) ensures pcs[u].search.addr != k {
      assert CallOk(nodes, shape, live, pcs[u]);
      assert GrantOk(nextGrant, inserted, ext, st, pcs[u].search.grant, live[pcs[u].search.grant]);
    }
  }

  lemma {:induction false} CallsInstall(a: Nodes, b: Nodes, shape: Shape, grown: Shape, live: map<nat, Grant>,
      pcs: map<nat, Pc>, t: nat, to: Pc, k: nat, size: nat, mask: Mask)
    requires CallsInv(a, shape, live, pcs) && t in pcs && !Committed(to)
    requires forall u :: u in pcs && Committed(pcs[u]) ==> pcs[u].search.addr != k
    requires OnlyAt(a, b, shape, grown, k, size, mask)
    ensures CallsInv(b, grown, live, pcs[t := to])
  {
    forall u | u in pcs && u != t ensures CallOk(b, grown, live, pcs[u]) {
      assert CallOk(a, shape, live, pcs[u]);
      if Committed(pcs[u]) {
        forall p | Linked(b, grown, p, pcs[u].search.addr) ensures Engaged(pcs[u].search) <= b[p].mask {
          assert Linked(a, shape, p, pcs[u].search.addr);
        }
      }
    }
    CallsMove(b, grown, live, pcs[t := to], t, to);
  }

  lemma {:induction false} GrantsInserted(nextGrant: nat, inserted: set<nat>, ext: map<nat, nat>, st: map<nat, Status>,
      live: map<nat, Grant>, k: nat)
    requires GrantsInv(nextGrant, inserted, ext, st, live)
    ensures GrantsInv(nextGrant, inserted + {k}, ext, st, live)
  {
    forall g | g in live ensures GrantOk(nextGrant, inserted + {k}, ext, st, g, live[g]) {
      assert GrantOk(nextGrant, inserted, ext, st, g, live[g]);
    }
  }

  /** The extent an insertion has in hand stays in hand while its record is linked or merged. */
  lemma {:induction false} OwnersInstall(c: Config, root: Ptr, a: Nodes, b: Nodes, shape: Shape, inserted: set<nat>,
      head: Ptr, slots: Slots, chain: seq<Ptr>, bump: nat, ext: map<nat, nat>, st: map<nat, Status>, pcs: map<nat, Pc>,
          t: nat, pc: Pc, to: Pc)
    requires c.WellFormed() && ExtInv(c, bump, ext)
    requires TreeInv(root, a, shape, inserted, pcs) && ListInv(head, slots, chain, pcs)
    requires OwnersInv(a, slots, ext, st, pcs) && t in pcs && pcs[t] == pc
    requires AllKept(a, b, slots, slots, pcs)
    requires PrivateNode(pc) != NIL && to == Inc(pc.ins.want, NodeAt(a, pc.ins.node).addr, NodeAt(a, pc.ins.node).mask)
    ensures Has(ext, st, t, to.addr) && NodeAt(a, pc.ins.node).size == ext[to.addr]
    ensures forall x :: x in st && x != to.addr ==> st[x] != Busy(t)
    ensures OwnersInv(b, slots, ext, st, pcs[t := to])
  {
    assert BlockPc(a, slots, ext, st, t, pc);
    NoExtentAtZero(c, bump, a, slots, ext, st, pcs);
    OnlyInHand(a, slots, ext, st, pcs, t);
    OwnersFrame(root, a, b, shape, inserted, head, slots, slots, chain, ext, st, pcs);
    assert InHandKept(a, b, slots, slots, pcs[t]);
    OwnersMove(b, slots, ext, st, pcs, t, to);
  }

  /** The tree after an installation is in order, and so is everything else. */
  lemma {:induction false} Install(c: Config, s: State, v: View, t: nat, pc: Pc, root: Ptr, b: Nodes, grown: Shape)
    requires v in Views(c, s) && t in s.pcs && s.pcs[t] == pc && PrivateNode(pc) != NIL
    requires b.Keys == s.nodes.Keys
    requires AllKept(s.nodes, b, s.slots, s.slots, s.pcs)
    requires var n := NodeAt(s.nodes, pc.ins.node);
             && TreeInv(root, b, grown, s.inserted + {n.addr}, s.pcs[t := Inc(pc.ins.want, n.addr, n.mask)])
             && OnlyAt(s.nodes, b, v.shape, grown, n.addr, n.size, n.mask)
    ensures Good(c, Inserted(s.(root := root, nodes := b), t, pc.ins))
  {
    var n := NodeAt(s.nodes, pc.ins.node);
    var to := Inc(pc.ins.want, n.addr, n.mask);
    assert InHandKept(s.nodes, b, s.slots, s.slots, s.pcs[t]);
    OwnersInstall(c, s.root, s.nodes, b, v.shape, s.inserted, s.head, s.slots, v.chain, s.bump, v.ext, v.st, s.pcs, t,
        pc, to);
    ListMove(s.head, s.slots, v.chain, s.pcs, t, to);
    NodesInstall(s.nodes, b, v.shape, grown, v.ext, v.st, s.live, s.pcs, t, to);
    NoCallOn(s.nodes, v.shape, s.nextGrant, s.inserted, v.ext, v.st, s.live, s.pcs, n.addr);
    CallsInstall(s.nodes, b, v.shape, grown, s.live, s.pcs, t, to, n.addr, n.size, n.mask);
    GrantsInserted(s.nextGrant, s.inserted, v.ext, v.st, s.live, n.addr);
    MetaSameKeys(c, s.nodes, b, s.slots, s.slots, s.nodeBump);
    assert v.(shape := grown) in Views(c, Goto(s.(root := root, nodes := b, inserted := s.inserted + {n.addr}), t, to));
  }

  lemma {:induction false} SameInHand(nodes: Nodes, slots: Slots, pcs: map<nat, Pc>)
    ensures AllKept(nodes, nodes, slots, slots, pcs)
  {
  }

  lemma {:induction false} StepInsRootWin(c: Config, s: State, v: View, t: nat, pc: Pc)
    requires v in Views(c, s) && t in s.pcs && s.pcs[t] == pc && pc.InsRootCas? && s.root == NIL
    ensures Good(c, Inserted(s.(root := pc.ins.node), t, pc.ins))
  {
    assert TreePc(s.root, s.nodes, v.shape, pc);
    var n := s.nodes[pc.ins.node];
    var grown := Branch(Leaf, pc.ins.node, Leaf);
    TreePlant(s.nodes, v.shape, s.inserted, s.pcs, t, pc.ins.node, Inc(pc.ins.want, n.addr, n.mask));
    SameInHand(s.nodes, s.slots, s.pcs);
    assert Ptrs(grown) == {pc.ins.node};
    Install(c, s, v, t, pc, pc.ins.node, s.nodes, grown);
  }

  lemma {:induction false} OnlyAtGrow(root: Ptr, nodes: Nodes, shape: Shape, k: nat, c: Ptr, n: Ptr)
    requires CanLink(root, nodes, shape, k, c, n)
    ensures OnlyAt(nodes, SetChild(nodes, c, k, n), shape, Grow(nodes, shape, k, n), k, nodes[n].size, nodes[n].mask)
  {
    GrowPtrs(nodes, root, shape, -1, WORD, k, n);
    RepBounds(nodes, root, shape, -1, WORD);
    OnPathIn(nodes, shape, k, c);
    forall p | p in Ptrs(shape) ensures nodes[p].addr != k {
      if nodes[p].addr == k { PresentGoesOn(nodes, root, shape, -1, WORD, k, c, p); }
    }
  }

  lemma {:induction false} CanLinkHere(root: Ptr, nodes: Nodes, shape: Shape, pc: Pc)
    requires Rep(nodes, root, shape, -1, WORD) && TreePc(root, nodes, shape, pc) && pc.InsCas?
    requires Child(NodeAt(nodes, pc.cur), NodeAt(nodes, pc.ins.node).addr) == NIL
    ensures CanLink(root, nodes, shape, NodeAt(nodes, pc.ins.node).addr, pc.cur, pc.ins.node)
    ensures pc.cur in Ptrs(shape)
  {
    OnPathIn(nodes, shape, nodes[pc.ins.node].addr, pc.cur);
  }

  lemma {:induction false} StepInsWin(c: Config, s: State, v: View, t: nat, pc: Pc)
    requires v in Views(c, s) && t in s.pcs && s.pcs[t] == pc && pc.InsCas?
    requires Child(NodeAt(s.nodes, pc.cur), NodeAt(s.nodes, pc.ins.node).addr) == NIL
    ensures Good(c,
            Inserted(s.(nodes :=
                s.nodes[pc.cur := WithChild(NodeAt(s.nodes, pc.cur), NodeAt(s.nodes, pc.ins.node).addr, pc.ins.node)]),
                    t, pc.ins))
  {
    assert TreePc(s.root, s.nodes, v.shape, pc);
    CanLinkHere(s.root, s.nodes, v.shape, pc);
    var n := s.nodes[pc.ins.node];
    var b, grown := SetChild(s.nodes, pc.cur, n.addr, pc.ins.node), Grow(s.nodes, v.shape, n.addr, pc.ins.node);
    TreeGrow(s.root, s.nodes, v.shape, s.inserted, s.pcs, t, n.addr, pc.cur, pc.ins.node,
        Inc(pc.ins.want, n.addr, n.mask));
    LinkedNotInHand(s.root, s.nodes, b, v.shape, s.inserted, s.slots, s.pcs, pc.cur);
    OnlyAtGrow(s.root, s.nodes, v.shape, n.addr, pc.cur, pc.ins.node);
    Install(c, s, v, t, pc, s.root, b, grown);
  }

  lemma {:induction false} OnlyAtMerge(root: Ptr, nodes: Nodes, shape: Shape, slots: Slots, ext: map<nat, nat>,
      st: map<nat, Status>, live: map<nat, Grant>, pcs: map<nat, Pc>, t: nat, pc: Pc)
    requires Rep(nodes, root, shape, -1, WORD)
    requires TreePc(root, nodes, shape, pc) && BlockPc(nodes, slots, ext, st, t, pc) && pc.InsMerge?
    requires NodeBlocks(nodes, shape, ext, st, live, pcs) && t in pcs && pcs[t] == pc
    ensures var n := nodes[pc.ins.node];
            OnlyAt(nodes, WithMask(nodes, pc.cur, nodes[pc.cur].mask + n.mask), shape, shape, n.addr, n.size, n.mask)
  {
    RepBounds(nodes, root, shape, -1, WORD);
    assert NodeOk(nodes[pc.cur], ext, st, live, pcs);
    forall p | p in Ptrs(shape) && nodes[p].addr == nodes[pc.cur].addr ensures p == pc.cur {
      UniqueKey(nodes, root, shape, -1, WORD, p, pc.cur);
    }
  }

  lemma {:induction false} TreeMerge(root: Ptr, nodes: Nodes, shape: Shape, inserted: set<nat>, pcs: map<nat, Pc>,
      t: nat, pc: Pc, mask: Mask, to: Pc)
    requires TreeInv(root, nodes, shape, inserted, pcs) && t in pcs && pcs[t] == pc && pc.InsMerge?
    requires to.Inc? && to.addr == NodeAt(nodes, pc.ins.node).addr
    ensures inserted + {to.addr} == inserted
    ensures TreeInv(root, WithMask(nodes, pc.cur, mask), shape, inserted, pcs[t := to])
  {
    assert TreePc(root, nodes, shape, pc);
    assert HasKey(nodes, shape, to.addr);
    TreeFrame(root, nodes, WithMask(nodes, pc.cur, mask), shape, inserted, pcs);
    HasKeyFrame(nodes, WithMask(nodes, pc.cur, mask), shape, to.addr);
    TreeMove(root, WithMask(nodes, pc.cur, mask), shape, inserted, pcs, t, to);
  }

  lemma {:induction false} StepInsMerge(c: Config, s: State, v: View, t: nat, pc: Pc)
    requires v in Views(c, s) && t in s.pcs && s.pcs[t] == pc && pc.InsMerge?
    ensures Good(c, DoInsMerge(s, t, pc))
  {
    assert TreePc(s.root, s.nodes, v.shape, pc) && BlockPc(s.nodes, s.slots, v.ext, v.st, t, pc);
    var n := s.nodes[pc.ins.node];
    var b := WithMask(s.nodes, pc.cur, s.nodes[pc.cur].mask + n.mask);
    TreeMerge(s.root, s.nodes, v.shape, s.inserted, s.pcs, t, pc, s.nodes[pc.cur].mask + n.mask,
        Inc(pc.ins.want, n.addr, n.mask));
    LinkedNotInHand(s.root, s.nodes, b, v.shape, s.inserted, s.slots, s.pcs, pc.cur);
    OnlyAtMerge(s.root, s.nodes, v.shape, s.slots, v.ext, v.st, s.live, s.pcs, t, pc);
    Install(c, s, v, t, pc, s.root, b, v.shape);
    MergeIs(s, t, pc);
  }

  lemma {:induction false} MergeIs(s: State, t: nat, pc: Pc)
    requires pc.InsMerge? && pc.ins.node in s.nodes && pc.cur in s.nodes && pc.ins.node != pc.cur
    requires s.inserted + {s.nodes[pc.ins.node].addr} == s.inserted
    ensures Inserted(s.(root := s.root,
            nodes := WithMask(s.nodes, pc.cur, s.nodes[pc.cur].mask + s.nodes[pc.ins.node].mask)), t, pc.ins)
            == DoInsMerge(s, t, pc)
  {
  }

  // ---- findNode -------------------------------------------------------------------------------------------------

  lemma {:induction false} StepFindRoot(c: Config, s: State, v: View, t: nat, pc: Pc)
    requires v in Views(c, s) && t in s.pcs && s.pcs[t] == pc && pc.FindRoot?
    ensures Good(c, if s.root == NIL then Miss(s, t, pc.search) else Goto(s, t, FindAt(pc.search, s.root)))
  {
    assert TreePc(s.root, s.nodes, v.shape, pc);
    if s.root == NIL {
      assert v.shape == Leaf;
      assert !MustFind(pc.search);
      StandGood(c, s, v, t, Looked(pc.search.addr, pc.search.present, false));
    } else {
      StandGood(c, s, v, t, FindAt(pc.search, s.root));
    }
  }

  /** A search for an address that was there when it started never falls off the tree. */
  lemma {:induction false} NeverMiss(root: Ptr, nodes: Nodes, shape: Shape, pc: Pc)
    requires Rep(nodes, root, shape, -1, WORD) && TreePc(root, nodes, shape, pc) && pc.FindAt?
    requires NodeAt(nodes, pc.cur).addr != pc.search.addr && MustFind(pc.search)
    ensures Child(NodeAt(nodes, pc.cur), pc.search.addr) != NIL
  {
    var q :| q in Ptrs(shape) && q in nodes && nodes[q].addr == pc.search.addr;
    OnPathIn(nodes, shape, pc.search.addr, pc.cur);
    PresentGoesOn(nodes, root, shape, -1, WORD, pc.search.addr, pc.cur, q);
  }

  lemma {:induction false} StepFindMiss(c: Config, s: State, v: View, t: nat, pc: Pc)
    requires v in Views(c, s) && t in s.pcs && s.pcs[t] == pc && pc.FindAt?
    requires NodeAt(s.nodes, pc.cur).addr != pc.search.addr && Child(NodeAt(s.nodes, pc.cur), pc.search.addr) == NIL
    ensures Good(c, Miss(s, t, pc.search))
  {
    assert TreePc(s.root, s.nodes, v.shape, pc);
    if MustFind(pc.search) { NeverMiss(s.root, s.nodes, v.shape, pc); }
    StandGood(c, s, v, t, Looked(pc.search.addr, pc.search.present, false));
  }

  lemma {:induction false} StepFindNext(c: Config, s: State, v: View, t: nat, pc: Pc)
    requires v in Views(c, s) && t in s.pcs && s.pcs[t] == pc && pc.FindAt?
    requires NodeAt(s.nodes, pc.cur).addr != pc.search.addr && Child(NodeAt(s.nodes, pc.cur), pc.search.addr) != NIL
    ensures Good(c, Goto(s, t, FindAt(pc.search, Child(NodeAt(s.nodes, pc.cur), pc.search.addr))))
  {
    assert TreePc(s.root, s.nodes, v.shape, pc);
    OnPathIn(s.nodes, v.shape, pc.search.addr, pc.cur);
    OnPathStep(s.nodes, s.root, v.shape, -1, WORD, pc.search.addr, pc.cur);
    StandGood(c, s, v, t, FindAt(pc.search, Child(NodeAt(s.nodes, pc.cur), pc.search.addr)));
  }

  lemma {:induction false} StepFindHit(c: Config, s: State, v: View, t: nat, pc: Pc)
    requires v in Views(c, s) && t in s.pcs && s.pcs[t] == pc && pc.FindAt?
    requires NodeAt(s.nodes, pc.cur).addr == pc.search.addr
    ensures Good(c, Hit(s, t, pc.search, pc.cur))
  {
    assert TreePc(s.root, s.nodes, v.shape, pc);
    OnPathIn(s.nodes, v.shape, pc.search.addr, pc.cur);
    assert HasKey(s.nodes, v.shape, pc.search.addr);
    match pc.search
    case ForShare(_, _, _, _) => StandGood(c, s, v, t, ShareOr(pc.search, pc.cur));
    case ForFree(_, _, _) => StandGood(c, s, v, t, ClearLoad(pc.search, pc.cur));
    case ForLookup(addr, present) => StandGood(c, s, v, t, Looked(addr, present, true));
  }

  lemma {:induction false} StepClearLoad(c: Config, s: State, v: View, t: nat, pc: Pc)
    requires v in Views(c, s) && t in s.pcs && s.pcs[t] == pc && pc.ClearLoad?
    ensures Good(c, Goto(s, t, ClearCas(pc.search, pc.cur, NodeAt(s.nodes, pc.cur).mask)))
  {
    assert TreePc(s.root, s.nodes, v.shape, pc);
    StandGood(c, s, v, t, ClearCas(pc.search, pc.cur, NodeAt(s.nodes, pc.cur).mask));
  }

  lemma {:induction false} StepClearLose(c: Config, s: State, v: View, t: nat, pc: Pc)
    requires v in Views(c, s) && t in s.pcs && s.pcs[t] == pc && pc.ClearCas?
    ensures Good(c, Goto(s, t, ClearLoad(pc.search, pc.cur)))
  {
    assert TreePc(s.root, s.nodes, v.shape, pc);
    StandGood(c, s, v, t, ClearLoad(pc.search, pc.cur));
  }
}
