/** The moves one by one: each keeps the invariant. */
module MachineMoves {
  import opened Words
  import opened Layout
  import opened SearchTree
  import opened FreeStack
  import opened Machine
  import opened MachineInvariant
  import opened MachineSteps

  /** A thread moves on with what it had in hand, or with nothing. */
  lemma {:induction false} StandGood(c: Config, s: State, v: View, t: nat, pc: Pc)
    requires v in Views(c, s) && t in s.pcs
    requires TreePc(s.root, s.nodes, v.shape, pc)
    requires ListPc(s.slots, v.chain, pc)
    requires BlockPc(s.nodes, s.slots, v.ext, v.st, t, pc)
    requires PrivateNode(pc) != NIL ==> PrivateNode(pc) == PrivateNode(s.pcs[t])
    requires PrivateSlot(pc) != NIL ==> PrivateSlot(pc) == PrivateSlot(s.pcs[t])
    requires Owned(s.nodes, s.slots, pc) == Owned(s.nodes, s.slots, s.pcs[t])
    requires !pc.Inc? && !s.pcs[t].Inc?
    requires Committed(pc) ==> Committed(s.pcs[t]) && pc.search == s.pcs[t].search
    ensures Good(c, Goto(s, t, pc))
  {
    StandStill(c, s, v, t, pc);
    assert v in Views(c, Goto(s, t, pc));
  }

  // ---- popFree ---------------------------------------------------------------------------------------

  lemma {:induction false} StepPopHead(c: Config, s: State, v: View, t: nat, pc: Pc)
    requires v in Views(c, s) && t in s.pcs && s.pcs[t] == pc && pc.PopHead?
    ensures Good(c, Goto(s, t, if s.head == NIL then Bump(pc.want, pc.mask) else PopNext(pc.want, pc.mask, s.head)))
  {
    ChainIn(s.slots, s.head, v.chain);
    assert v.chain != [] ==> v.chain[0] in v.chain;
    assert BlockPc(s.nodes, s.slots, v.ext, v.st, t, pc);
    StandGood(c, s, v, t, if s.head == NIL then Bump(pc.want, pc.mask) else PopNext(pc.want, pc.mask, s.head));
  }

  lemma {:induction false} StepPopNext(c: Config, s: State, v: View, t: nat, pc: Pc)
    requires v in Views(c, s) && t in s.pcs && s.pcs[t] == pc && pc.PopNext?
    ensures Good(c, Goto(s, t, PopCas(pc.want, pc.mask, pc.top, SlotAt(s.slots, pc.top).next)))
  {
    assert BlockPc(s.nodes, s.slots, v.ext, v.st, t, pc) && ListPc(s.slots, v.chain, pc);
    StandGood(c, s, v, t, PopCas(pc.want, pc.mask, pc.top, SlotAt(s.slots, pc.top).next));
  }

  lemma {:induction false} ListPop(head: Ptr, slots: Slots, chain: seq<Ptr>, pcs: map<nat, Pc>, t: nat, pc: Pc)
    requires ListInv(head, slots, chain, pcs) && t in pcs
    requires head != NIL
    requires PrivateSlot(pc) == NIL || PrivateSlot(pc) == head
    requires !pc.PopNext? && !pc.PopCas? && !pc.PushCas? && (PrivateSlot(pc) == NIL ==> !pc.PushHead? && !pc.PushLink?)
    ensures chain != [] && chain[0] == head && head in slots
    ensures ListInv(slots[head].next, slots, chain[1..], pcs[t := pc])
  {
    assert chain == [head] + chain[1..];
    forall u | u in pcs && u != t ensures ListPc(slots, chain[1..], pcs[u]) && PrivateSlot(pcs[u]) != head {
      assert ListPc(slots, chain, pcs[u]);
    }
  }

  lemma {:induction false} ChainBlocksPop(slots: Slots, chain: seq<Ptr>, ext: map<nat, nat>, st: map<nat, Status>,
      o: Status)
    requires ChainBlocks(slots, chain, ext, st) && chain != [] && Distinct(chain)
    ensures SlotAt(slots, chain[0]).addr in st
    ensures ChainBlocks(slots, chain[1..], ext, st[SlotAt(slots, chain[0]).addr := o])
  {
    var a := SlotAt(slots, chain[0]).addr;
    assert chain == [chain[0]] + chain[1..];
    assert SlotFree(slots, ext, st, chain[0]);
    forall p | p in chain[1..] ensures SlotFree(slots, ext, st[a := o], p) {
      assert p in chain && p != chain[0];
      assert SlotFree(slots, ext, st, p);
    }
  }

  /** Zero is never the address of an extent. */
  lemma {:induction false} NoExtentAtZero(c: Config, bump: nat, nodes: Nodes, slots: Slots, ext: map<nat, nat>,
      st: map<nat, Status>, pcs: map<nat, Pc>)
    requires c.WellFormed() && ExtInv(c, bump, ext) && OwnersInv(nodes, slots, ext, st, pcs)
    ensures 0 !in st
  {
  }

  /** A thread with nothing in hand has no extent. */
  lemma {:induction false} OnlyInHand(nodes: Nodes, slots: Slots, ext: map<nat, nat>, st: map<nat, Status>,
      pcs: map<nat, Pc>, t: nat)
    requires OwnersInv(nodes, slots, ext, st, pcs) && t in pcs && 0 !in st
    ensures forall b :: b in st && b != Owned(nodes, slots, pcs[t]) ==> st[b] != Busy(t)
  {
    forall b | b in st && b != Owned(nodes, slots, pcs[t]) ensures st[b] != Busy(t) {
      assert BusyOk(nodes, slots, st, pcs, b);
    }
  }

  /** An ungranted extent changes hands as its thread moves on.  Its mask is clear before and after. */
  lemma {:induction false} HandOver(c: Config, s: State, v: View, t: nat, a: nat, o: Status, to: Pc, head: Ptr,
      chain: seq<Ptr>, nodeBump: nat)
    requires v in Views(c, s) && t in s.pcs && a in v.st && !v.st[a].Live? && !o.Live?
    requires v.st[a].Busy? ==> v.st[a].thread == t
    requires o.Busy? ==> o.thread == t
    requires Owned(s.nodes, s.slots, s.pcs[t]) == if v.st[a].Busy? then a else 0
    requires Owned(s.nodes, s.slots, to) == if o.Busy? then a else 0
    requires !s.pcs[t].Inc? && !to.Inc? && !Committed(to) && PrivateNode(to) == NIL
    requires TreePc(s.root, s.nodes, v.shape, to)
    requires BlockPc(s.nodes, s.slots, v.ext, v.st[a := o], t, to)
    requires MetaInv(c, s.nodes, s.slots, nodeBump)
    requires ListInv(head, s.slots, chain, s.pcs[t := to])
    requires ChainBlocks(s.slots, chain, v.ext, v.st[a := o])
    ensures Good(c, Goto(s.(head := head, nodeBump := nodeBump), t, to))
  {
    NoExtentAtZero(c, s.bump, s.nodes, s.slots, v.ext, v.st, s.pcs);
    OnlyInHand(s.nodes, s.slots, v.ext, v.st, s.pcs, t);
    TreeMove(s.root, s.nodes, v.shape, s.inserted, s.pcs, t, to);
    OwnersChange(s.nodes, s.slots, v.ext, v.st, s.pcs, t, a, o, to);
    NodesHandOver(s.nodes, v.shape, v.ext, v.st, s.live, s.pcs, t, a, o, to);
    GrantsChange(s.nextGrant, s.inserted, v.ext, v.st, s.live, a, o);
    CallsMove(s.nodes, v.shape, s.live, s.pcs, t, to);
    assert v.(chain := chain, st := v.st[a := o]) in Views(c, Goto(s.(head := head, nodeBump := nodeBump), t, to));
  }

  lemma {:induction false} NodesHandOver(nodes: Nodes, shape: Shape, ext: map<nat, nat>, st: map<nat, Status>,
                      live: map<nat, Grant>, pcs: map<nat, Pc>, t: nat, a: nat, o: Status, to: Pc)
    requires NodeBlocks(nodes, shape, ext, st, live, pcs) && t in pcs && a in st
    requires forall b :: b in st && b != a ==> st[b] != Busy(t)
    requires !st[a].Live? && !o.Live? && !pcs[t].Inc? && !to.Inc?
    requires st[a].Busy? ==> st[a].thread == t
    requires o.Busy? ==> o.thread == t
    ensures NodeBlocks(nodes, shape, ext, st[a := o], live, pcs[t := to])
  {
    forall p | Linked(nodes, shape, p, a) ensures MaskOk(nodes[p].mask, o, live, pcs[t := to]) {
      assert NodeOk(nodes[p], ext, st, live, pcs);
    }
    NodesChange(nodes, shape, ext, st, live, live, pcs, t, a, o, to);
  }

  function Taken(slots: Slots, pc: Pc, top: Ptr): Pc
    requires pc.PopCas?
  {
    if SlotAt(slots, top).size >= pc.want
    then NewNode(pc.want, pc.mask, SlotAt(slots, top).addr, SlotAt(slots, top).size)
    else PushHead(Repush(pc.want, pc.mask), top)
  }

  lemma {:induction false} TakenOk(nodes: Nodes, slots: Slots, chain: seq<Ptr>, ext: map<nat, nat>,
      st: map<nat, Status>, t: nat, pc: Pc)
    requires ChainBlocks(slots, chain, ext, st) && chain != [] && pc.PopCas?
    requires BlockPc(nodes, slots, ext, st, t, pc)
    ensures SlotAt(slots, chain[0]).addr in st && st[SlotAt(slots, chain[0]).addr] == Free
    ensures BlockPc(nodes, slots, ext, st[SlotAt(slots, chain[0]).addr := Busy(t)], t, Taken(slots, pc, chain[0]))
    ensures Owned(nodes, slots, Taken(slots, pc, chain[0])) == SlotAt(slots, chain[0]).addr
  {
    assert SlotFree(slots, ext, st, chain[0]);
  }

  /** The top of the list goes into the hands of the thread whose compare-and-swap succeeds. */
  lemma {:induction false} StepPopTake(c: Config, s: State, v: View, t: nat, pc: Pc)
    requires v in Views(c, s) && t in s.pcs && s.pcs[t] == pc && pc.PopCas? && s.head == pc.top
    requires SlotAt(s.slots, s.head).next == pc.next
    ensures Good(c, Goto(s.(head := pc.next), t, Taken(s.slots, pc, pc.top)))
  {
    var a := SlotAt(s.slots, s.head).addr;
    var to := Taken(s.slots, pc, s.head);
    assert ListPc(s.slots, v.chain, pc);
    assert RecordIn(c, pc.top, SLOT_BYTES, s.nodeBump);
    ListPop(s.head, s.slots, v.chain, s.pcs, t, to);
    ChainBlocksPop(s.slots, v.chain, v.ext, v.st, Busy(t));
    TakenOk(s.nodes, s.slots, v.chain, v.ext, v.st, t, pc);
    HandOver(c, s, v, t, a, Busy(t), to, pc.next, v.chain[1..], s.nodeBump);
  }

  lemma {:induction false} StepPopLose(c: Config, s: State, v: View, t: nat, pc: Pc)
    requires v in Views(c, s) && t in s.pcs && s.pcs[t] == pc && pc.PopCas?
    ensures Good(c, Goto(s, t, PopHead(pc.want, pc.mask)))
  {
    assert BlockPc(s.nodes, s.slots, v.ext, v.st, t, pc);
    StandGood(c, s, v, t, PopHead(pc.want, pc.mask));
  }

  // ---- pushFree --------------------------------------------------------------------------------------

  lemma {:induction false} StepPushHead(c: Config, s: State, v: View, t: nat, pc: Pc)
    requires v in Views(c, s) && t in s.pcs && s.pcs[t] == pc && pc.PushHead?
    ensures Good(c, Goto(s, t, PushLink(pc.push, pc.slot, s.head)))
  {
    assert ListPc(s.slots, v.chain, pc);
    assert BlockPc(s.nodes, s.slots, v.ext, v.st, t, pc);
    StandGood(c, s, v, t, PushLink(pc.push, pc.slot, s.head));
  }

  lemma {:induction false} StepPushLose(c: Config, s: State, v: View, t: nat, pc: Pc)
    requires v in Views(c, s) && t in s.pcs && s.pcs[t] == pc && pc.PushCas?
    ensures Good(c, Goto(s, t, PushHead(pc.push, pc.slot)))
  {
    assert ListPc(s.slots, v.chain, pc);
    assert BlockPc(s.nodes, s.slots, v.ext, v.st, t, pc);
    StandGood(c, s, v, t, PushHead(pc.push, pc.slot));
  }

  ghost function Relinked(slots: Slots, p: Ptr, next: Ptr): Slots {
    slots[p := SlotAt(slots, p).(next := next)]
  }

  lemma {:induction false} ListRelink(head: Ptr, slots: Slots, chain: seq<Ptr>, pcs: map<nat, Pc>, t: nat, pc: Pc)
    requires ListInv(head, slots, chain, pcs) && t in pcs && pcs[t] == pc && pc.PushLink?
    ensures ListInv(head, Relinked(slots, pc.slot, pc.seenTop), chain, pcs)
  {
    var after := Relinked(slots, pc.slot, pc.seenTop);
    assert ListPc(slots, chain, pc);
    assert PrivateSlot(pcs[t]) == pc.slot;
    ChainFrame(slots, after, head, chain);
    forall u | u in pcs ensures ListPc(after, chain, pcs[u]) {
      assert ListPc(slots, chain, pcs[u]);
      assert u != t && PrivateSlot(pcs[u]) != NIL ==> PrivateSlot(pcs[u]) != PrivateSlot(pcs[t]);
    }
  }

  lemma {:induction false} RelinkInHand(slots: Slots, nodes: Nodes, p: Ptr, next: Ptr, pcs: map<nat, Pc>)
    requires p in slots
    ensures AllKept(nodes, nodes, slots, Relinked(slots, p, next), pcs)
  {
  }

  lemma {:induction false} StepPushLink(c: Config, s: State, v: View, t: nat, pc: Pc)
    requires v in Views(c, s) && t in s.pcs && s.pcs[t] == pc && pc.PushLink?
    ensures Good(c, Goto(s.(slots := Relinked(s.slots, pc.slot, pc.seenTop)), t, PushCas(pc.push, pc.slot, pc.seenTop)))
  {
    var after := Relinked(s.slots, pc.slot, pc.seenTop);
    var s1 := s.(slots := after);
    assert ListPc(s.slots, v.chain, pc);
    assert v in Views(c, s1) by {
      assert after.Keys == s.slots.Keys;
      ListRelink(s.head, s.slots, v.chain, s.pcs, t, pc);
      RelinkInHand(s.slots, s.nodes, pc.slot, pc.seenTop, s.pcs);
      OwnersFrame(s.root, s.nodes, s.nodes, v.shape, s.inserted, s.head, s.slots, after, v.chain, v.ext, v.st, s.pcs);
      RelinkChainBlocks(s.slots, v.chain, v.ext, v.st, pc.slot, pc.seenTop);
      MetaSameKeys(c, s.nodes, s.nodes, s.slots, after, s.nodeBump);
    }
    Relink(c, s1, v, t, pc);
  }

  lemma {:induction false} Relink(c: Config, s: State, v: View, t: nat, pc: Pc)
    requires v in Views(c, s) && t in s.pcs && s.pcs[t] == pc && pc.PushLink?
             && SlotAt(s.slots, pc.slot).next == pc.seenTop
    ensures Good(c, Goto(s, t, PushCas(pc.push, pc.slot, pc.seenTop)))
  {
    assert ListPc(s.slots, v.chain, pc);
    assert BlockPc(s.nodes, s.slots, v.ext, v.st, t, pc);
    StandGood(c, s, v, t, PushCas(pc.push, pc.slot, pc.seenTop));
  }

  lemma {:induction false} RelinkChainBlocks(slots: Slots, chain: seq<Ptr>, ext: map<nat, nat>, st: map<nat, Status>,
      p: Ptr, next: Ptr)
    requires ChainBlocks(slots, chain, ext, st)
    ensures ChainBlocks(Relinked(slots, p, next), chain, ext, st)
  {
    forall q | q in chain ensures SlotFree(Relinked(slots, p, next), ext, st, q) { assert SlotFree(slots, ext, st, q); }
    assert forall q :: SlotAt(Relinked(slots, p, next), q).addr == SlotAt(slots, q).addr;
  }

  lemma {:induction false} MetaSameKeys(c: Config, nodes: Nodes, b: Nodes, slots: Slots, q: Slots, nodeBump: nat)
    requires MetaInv(c, nodes, slots, nodeBump)
    requires b.Keys == nodes.Keys && q.Keys == slots.Keys
    ensures MetaInv(c, b, q, nodeBump)
  {
    assert |b| == |b.Keys| && |nodes| == |nodes.Keys| && |q| == |q.Keys| && |slots| == |slots.Keys|;
  }

  lemma {:induction false} ListPush(head: Ptr, slots: Slots, chain: seq<Ptr>, pcs: map<nat, Pc>, t: nat, pc: Pc)
    requires ListInv(head, slots, chain, pcs) && t in pcs && pcs[t] == pc && pc.PushCas? && head == pc.seenTop
    ensures ListInv(pc.slot, slots, [pc.slot] + chain, pcs[t := AfterPush(pc.push)])
  {
    assert ListPc(slots, chain, pc);
    assert PrivateSlot(pcs[t]) == pc.slot;
    assert ([pc.slot] + chain)[1..] == chain;
    forall u | u in pcs && u != t ensures ListPc(slots, [pc.slot] + chain, pcs[u]) {
      assert ListPc(slots, chain, pcs[u]);
      assert PrivateSlot(pcs[u]) != NIL ==> PrivateSlot(pcs[u]) != PrivateSlot(pc);
    }
  }

  lemma {:induction false} ChainBlocksPush(slots: Slots, chain: seq<Ptr>, ext: map<nat, nat>, st: map<nat, Status>,
      p: Ptr)
    requires ChainBlocks(slots, chain, ext, st)
    requires SlotAt(slots, p).addr in st && SlotAt(slots, p).addr in ext && st[SlotAt(slots, p).addr] != Free
    requires ext[SlotAt(slots, p).addr] == SlotAt(slots, p).size
    ensures ChainBlocks(slots, [p] + chain, ext, st[SlotAt(slots, p).addr := Free])
  {
    forall q | q in [p] + chain ensures SlotFree(slots, ext, st[SlotAt(slots, p).addr := Free], q) {
      if q in chain { assert SlotFree(slots, ext, st, q); }
    }
    forall q, r | q in [p] + chain && r in [p] + chain && q != r
        ensures SlotAt(slots, q).addr != SlotAt(slots, r).addr {
      if q in chain { assert SlotFree(slots, ext, st, q); }
      if r in chain { assert SlotFree(slots, ext, st, r); }
    }
  }

  lemma {:induction false} StepPushGive(c: Config, s: State, v: View, t: nat, pc: Pc)
    requires v in Views(c, s) && t in s.pcs && s.pcs[t] == pc && pc.PushCas? && s.head == pc.seenTop
    ensures Good(c, Goto(s.(head := pc.slot), t, AfterPush(pc.push)))
  {
    assert BlockPc(s.nodes, s.slots, v.ext, v.st, t, pc);
    var a := SlotAt(s.slots, pc.slot).addr;
    ListPush(s.head, s.slots, v.chain, s.pcs, t, pc);
    ChainBlocksPush(s.slots, v.chain, v.ext, v.st, pc.slot);
    HandOver(c, s, v, t, a, Free, AfterPush(pc.push), pc.slot, [pc.slot] + v.chain, s.nodeBump);
  }

  // ---- Alloc: bump, newNode, activeBlocks --------------------------------------------------------------

  /** A thread with nothing in hand gives up. */
  lemma {:induction false} GiveUp(c: Config, s: State, v: View, t: nat)
    requires v in Views(c, s) && t in s.pcs && Owned(s.nodes, s.slots, s.pcs[t]) == 0 && !s.pcs[t].Inc?
    ensures Good(c, Goto(s, t, Idle))
  {
    StandGood(c, s, v, t, Idle);
  }

  lemma {:induction false} ExtGrowing(c: Config, bump: nat, ext: map<nat, nat>, more: nat)
    requires ExtInv(c, bump, ext) && more % 8 == 0
    ensures ExtInv(c, bump + more, ext)
  {
  }

  lemma {:induction false} StepBumpFail(c: Config, s: State, v: View, t: nat, pc: Pc)
    requires v in Views(c, s) && t in s.pcs && s.pcs[t] == pc && pc.Bump?
    ensures Good(c, Goto(s.(bump := s.bump + pc.want), t, Idle))
  {
    assert BlockPc(s.nodes, s.slots, v.ext, v.st, t, pc);
    var s1 := s.(bump := s.bump + pc.want);
    assert v in Views(c, s1) by { ExtGrowing(c, s.bump, v.ext, pc.want); }
    GiveUp(c, s1, v, t);
  }

  lemma {:induction false} ExtBump(c: Config, bump: nat, ext: map<nat, nat>, want: nat)
    requires ExtInv(c, bump, ext) && 0 < want && want % 8 == 0 && bump + want <= c.payloadEnd
    ensures bump !in ext
    ensures ExtInv(c, bump + want, ext[bump := want])
  {
  }

  /** A new extent, still lost, disturbs nothing. */
  lemma {:induction false} ExtendBlocks(slots: Slots, chain: seq<Ptr>, nodes: Nodes, shape: Shape, nextGrant: nat,
      inserted: set<nat>, ext: map<nat, nat>, st: map<nat, Status>, live: map<nat, Grant>, pcs: map<nat, Pc>, a: nat,
          n: nat)
    requires ChainBlocks(slots, chain, ext, st) && NodeBlocks(nodes, shape, ext, st, live, pcs)
    requires GrantsInv(nextGrant, inserted, ext, st, live) && OwnersInv(nodes, slots, ext, st, pcs)
    requires a !in ext
    ensures ChainBlocks(slots, chain, ext[a := n], st[a := Lost])
    ensures NodeBlocks(nodes, shape, ext[a := n], st[a := Lost], live, pcs)
    ensures GrantsInv(nextGrant, inserted, ext[a := n], st[a := Lost], live)
    ensures OwnersInv(nodes, slots, ext[a := n], st[a := Lost], pcs)
  {
    var more, after := ext[a := n], st[a := Lost];
    forall p | p in chain ensures SlotFree(slots, more, after, p) { assert SlotFree(slots, ext, st, p); }
    forall p | p in Ptrs(shape) && p in nodes ensures NodeOk(nodes[p], more, after, live, pcs) {
      assert NodeOk(nodes[p], ext, st, live, pcs);
    }
    forall g | g in live ensures GrantOk(nextGrant, inserted, more, after, g, live[g]) {
      assert GrantOk(nextGrant, inserted, ext, st, g, live[g]);
    }
    forall b | b in after ensures LiveOk(after, live, b) { assert LiveOk(st, live, b); }
    forall b | b in after ensures BusyOk(nodes, slots, after, pcs, b) { assert BusyOk(nodes, slots, st, pcs, b); }
    forall t | t in pcs ensures BlockPc(nodes, slots, more, after, t, pcs[t]) {
      assert BlockPc(nodes, slots, ext, st, t, pcs[t]);
    }
  }

  lemma {:induction false} StepBump(c: Config, s: State, v: View, t: nat, pc: Pc)
    requires v in Views(c, s) && t in s.pcs && s.pcs[t] == pc && pc.Bump? && s.bump + pc.want <= c.payloadEnd
    ensures Good(c, Goto(s.(bump := s.bump + pc.want), t, NewNode(pc.want, pc.mask, s.bump, pc.want)))
  {
    assert BlockPc(s.nodes, s.slots, v.ext, v.st, t, pc);
    var to := NewNode(pc.want, pc.mask, s.bump, pc.want);
    var s1, w := s.(bump := s.bump + pc.want), v.(ext := v.ext[s.bump := pc.want], st := v.st[s.bump := Lost]);
    assert w in Views(c, s1) by {
      ExtBump(c, s.bump, v.ext, pc.want);
      ExtendBlocks(s.slots, v.chain, s.nodes, v.shape, s.nextGrant, s.inserted, v.ext, v.st, s.live, s.pcs, s.bump,
          pc.want);
    }
    TakeNew(c, s1, w, t, s.bump, to);
  }

  /** A thread with nothing in hand takes an extent that was lost. */
  lemma {:induction false} TakeNew(c: Config, s: State, v: View, t: nat, a: nat, to: Pc)
    requires v in Views(c, s) && t in s.pcs && s.pcs[t].Bump? && a in v.st && v.st[a] == Lost && a in v.ext
    requires to.NewNode? && to.addr == a && 0 < to.want <= to.size == v.ext[a]
    ensures Good(c, Goto(s, t, to))
  {
    ListMove(s.head, s.slots, v.chain, s.pcs, t, to);
    ChainBlocksChange(s.slots, v.chain, v.ext, v.st, a, Busy(t));
    HandOver(c, s, v, t, a, Busy(t), to, s.head, v.chain, s.nodeBump);
  }

  lemma {:induction false} MetaBump(c: Config, nodes: Nodes, slots: Slots, nodeBump: nat, more: nat)
    requires MetaInv(c, nodes, slots, nodeBump)
    ensures MetaInv(c, nodes, slots, nodeBump + more)
  {
    assert forall p :: p in nodes ==> RecordIn(c, p, NODE_BYTES, nodeBump);
    assert forall p :: p in slots ==> RecordIn(c, p, SLOT_BYTES, nodeBump);
  }

  /** A thread gives up and loses the extent it has in hand. */
  lemma {:induction false} LoseExtent(c: Config, s: State, v: View, t: nat, a: nat)
    requires v in Views(c, s) && t in s.pcs && Has(v.ext, v.st, t, a) && Owned(s.nodes, s.slots, s.pcs[t]) == a
    requires !s.pcs[t].Inc?
    ensures Good(c, Goto(s, t, Idle))
  {
    ListMove(s.head, s.slots, v.chain, s.pcs, t, Idle);
    ChainBlocksChange(s.slots, v.chain, v.ext, v.st, a, Lost);
    HandOver(c, s, v, t, a, Lost, Idle, s.head, v.chain, s.nodeBump);
  }

  lemma {:induction false} StepNewNodeFail(c: Config, s: State, v: View, t: nat, pc: Pc)
    requires v in Views(c, s) && t in s.pcs && s.pcs[t] == pc && pc.NewNode?
    ensures Good(c, Goto(s.(nodeBump := s.nodeBump + NODE_BYTES), t, Idle))
  {
    assert BlockPc(s.nodes, s.slots, v.ext, v.st, t, pc);
    var s1 := s.(nodeBump := s.nodeBump + NODE_BYTES);
    assert v in Views(c, s1) by { MetaBump(c, s.nodes, s.slots, s.nodeBump, NODE_BYTES); }
    LoseExtent(c, s1, v, t, pc.addr);
  }

  lemma {:induction false} StepNewSlotFail(c: Config, s: State, v: View, t: nat, pc: Pc)
    requires v in Views(c, s) && t in s.pcs && s.pcs[t] == pc && pc.NewSlot?
    ensures Good(c, Goto(s.(nodeBump := s.nodeBump + SLOT_BYTES), t, Idle))
  {
    assert BlockPc(s.nodes, s.slots, v.ext, v.st, t, pc);
    var s1 := s.(nodeBump := s.nodeBump + SLOT_BYTES);
    assert v in Views(c, s1) by { MetaBump(c, s.nodes, s.slots, s.nodeBump, SLOT_BYTES); }
    LoseExtent(c, s1, v, t, NodeAt(s.nodes, pc.cur).addr);
  }

  lemma {:induction false} MetaNewNode(c: Config, nodes: Nodes, slots: Slots, nodeBump: nat, n: Node)
    requires c.WellFormed() && MetaInv(c, nodes, slots, nodeBump) && nodeBump + NODE_BYTES <= c.nodeEnd
    ensures nodeBump != NIL && nodeBump !in nodes
    ensures MetaInv(c, nodes[nodeBump := n], slots, nodeBump + NODE_BYTES)
  {
    assert forall p :: p in nodes ==> RecordIn(c, p, NODE_BYTES, nodeBump);
    assert forall p :: p in slots ==> RecordIn(c, p, SLOT_BYTES, nodeBump);
  }

  lemma {:induction false} MetaNewSlot(c: Config, nodes: Nodes, slots: Slots, nodeBump: nat, n: Slot)
    requires c.WellFormed() && MetaInv(c, nodes, slots, nodeBump) && nodeBump + SLOT_BYTES <= c.nodeEnd
    ensures nodeBump != NIL && nodeBump !in slots
    ensures MetaInv(c, nodes, slots[nodeBump := n], nodeBump + SLOT_BYTES)
  {
    assert forall p :: p in nodes ==> RecordIn(c, p, NODE_BYTES, nodeBump);
    assert forall p :: p in slots ==> RecordIn(c, p, SLOT_BYTES, nodeBump);
  }

  // ---- New records ---------------------------------------------------------------------------------------

  /** What the records of a tree say is not disturbed by a record outside it. */
  lemma {:induction false} BlocksSameLinked(a: Nodes, b: Nodes, shape: Shape, ext: map<nat, nat>, st: map<nat, Status>,
                         live: map<nat, Grant>, pcs: map<nat, Pc>)
    requires NodeBlocks(a, shape, ext, st, live, pcs) && CallsInv(a, shape, live, pcs)
    requires forall p :: p in Ptrs(shape) ==> p in a && p in b && b[p] == a[p]
    ensures NodeBlocks(b, shape, ext, st, live, pcs) && CallsInv(b, shape, live, pcs)
  {
    forall p | p in Ptrs(shape) && p in b ensures NodeOk(b[p], ext, st, live, pcs) {
      assert NodeOk(a[p], ext, st, live, pcs);
    }
    forall t | t in pcs ensures CallOk(b, shape, live, pcs[t]) {
      assert CallOk(a, shape, live, pcs[t]);
      assert forall p, k :: Linked(b, shape, p, k) ==> Linked(a, shape, p, k);
    }
  }

  lemma {:induction false} FreshNotInHand(root: Ptr, a: Nodes, shape: Shape, inserted: set<nat>, slots: Slots,
      pcs: map<nat, Pc>, raw: Ptr, n: Node)
    requires TreeInv(root, a, shape, inserted, pcs) && raw !in a
    ensures AllKept(a, a[raw := n], slots, slots, pcs)
  {
    forall t | t in pcs ensures InHandKept(a, a[raw := n], slots, slots, pcs[t]) {
      assert TreePc(root, a, shape, pcs[t]);
    }
  }

  lemma {:induction false} BlocksAddNode(root: Ptr, a: Nodes, shape: Shape, ext: map<nat, nat>, st: map<nat, Status>,
                      live: map<nat, Grant>, pcs: map<nat, Pc>, raw: Ptr, n: Node)
    requires Rep(a, root, shape, -1, WORD) && raw !in a
    requires NodeBlocks(a, shape, ext, st, live, pcs) && CallsInv(a, shape, live, pcs)
    ensures NodeBlocks(a[raw := n], shape, ext, st, live, pcs) && CallsInv(a[raw := n], shape, live, pcs)
  {
    RepBounds(a, root, shape, -1, WORD);
    BlocksSameLinked(a, a[raw := n], shape, ext, st, live, pcs);
  }

  lemma {:induction false} TreeAddNode(root: Ptr, a: Nodes, shape: Shape, inserted: set<nat>, pcs: map<nat, Pc>,
      raw: Ptr, n: Node)
    requires TreeInv(root, a, shape, inserted, pcs) && raw !in a
    ensures TreeInv(root, a[raw := n], shape, inserted, pcs)
  {
    TreeFrame(root, a, a[raw := n], shape, inserted, pcs);
  }

  lemma {:induction false} AddNode(c: Config, s: State, v: View, n: Node)
    requires v in Views(c, s) && s.nodeBump + NODE_BYTES <= c.nodeEnd
    ensures v in Views(c, s.(nodes := s.nodes[s.nodeBump := n], nodeBump := s.nodeBump + NODE_BYTES))
  {
    MetaNewNode(c, s.nodes, s.slots, s.nodeBump, n);
    TreeAddNode(s.root, s.nodes, v.shape, s.inserted, s.pcs, s.nodeBump, n);
    FreshNotInHand(s.root, s.nodes, v.shape, s.inserted, s.slots, s.pcs, s.nodeBump, n);
    OwnersFrame(s.root, s.nodes, s.nodes[s.nodeBump := n], v.shape, s.inserted, s.head, s.slots, s.slots, v.chain,
        v.ext, v.st, s.pcs);
    BlocksAddNode(s.root, s.nodes, v.shape, v.ext, v.st, s.live, s.pcs, s.nodeBump, n);
  }

  lemma {:induction false} ListAddSlot(head: Ptr, slots: Slots, chain: seq<Ptr>, pcs: map<nat, Pc>, raw: Ptr, n: Slot)
    requires ListInv(head, slots, chain, pcs) && raw !in slots
    ensures raw !in chain
    ensures ListInv(head, slots[raw := n], chain, pcs)
  {
    ChainIn(slots, head, chain);
    ChainFrame(slots, slots[raw := n], head, chain);
    forall t | t in pcs ensures ListPc(slots[raw := n], chain, pcs[t]) {
      assert ListPc(slots, chain, pcs[t]);
    }
  }

  lemma {:induction false} SlotNotInHand(head: Ptr, slots: Slots, chain: seq<Ptr>, nodes: Nodes, pcs: map<nat, Pc>,
      raw: Ptr, n: Slot)
    requires ListInv(head, slots, chain, pcs) && raw !in slots
    ensures AllKept(nodes, nodes, slots, slots[raw := n], pcs)
  {
    forall t | t in pcs ensures InHandKept(nodes, nodes, slots, slots[raw := n], pcs[t]) {
      assert ListPc(slots, chain, pcs[t]);
    }
  }

  lemma {:induction false} ChainBlocksAddSlot(slots: Slots, chain: seq<Ptr>, ext: map<nat, nat>, st: map<nat, Status>,
      raw: Ptr, n: Slot)
    requires ChainBlocks(slots, chain, ext, st) && raw !in chain
    ensures ChainBlocks(slots[raw := n], chain, ext, st)
  {
    forall p | p in chain ensures SlotFree(slots[raw := n], ext, st, p)
        && SlotAt(slots[raw := n], p) == SlotAt(slots, p) {
      assert SlotFree(slots, ext, st, p);
    }
  }

  lemma {:induction false} AddSlot(c: Config, s: State, v: View, n: Slot)
    requires v in Views(c, s) && s.nodeBump + SLOT_BYTES <= c.nodeEnd
    ensures v in Views(c, s.(slots := s.slots[s.nodeBump := n], nodeBump := s.nodeBump + SLOT_BYTES))
  {
    var q := s.slots[s.nodeBump := n];
    MetaNewSlot(c, s.nodes, s.slots, s.nodeBump, n);
    ListAddSlot(s.head, s.slots, v.chain, s.pcs, s.nodeBump, n);
    SlotNotInHand(s.head, s.slots, v.chain, s.nodes, s.pcs, s.nodeBump, n);
    OwnersFrame(s.root, s.nodes, s.nodes, v.shape, s.inserted, s.head, s.slots, q, v.chain, v.ext, v.st, s.pcs);
    ChainBlocksAddSlot(s.slots, v.chain, v.ext, v.st, s.nodeBump, n);
  }
}
