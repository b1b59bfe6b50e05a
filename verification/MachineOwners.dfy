/** The moves on owner masks, the start of each call, and the step theorem that puts all moves together. */
module MachineOwners {
  import opened Words
  import opened Layout
  import opened SearchTree
  import opened FreeStack
  import opened Machine
  import opened MachineInvariant
  import opened MachineSteps
  import opened MachineMoves
  import opened MachineCalls

  // ---- Calls and the bits entrusted to them ------------------------------------------------------------

  /** The grant a call is for, its extent, and the record it has found. */
  lemma {:induction false} CallKnows(root: Ptr, nodes: Nodes, shape: Shape, nextGrant: nat, inserted: set<nat>,
      ext: map<nat, nat>, st: map<nat, Status>, live: map<nat, Grant>, pcs: map<nat, Pc>, t: nat, pc: Pc)
    requires TreePc(root, nodes, shape, pc) && (pc.ShareOr? || pc.ClearCas?)
    requires CallsInv(nodes, shape, live, pcs) && t in pcs && pcs[t] == pc
    requires GrantsInv(nextGrant, inserted, ext, st, live) && NodeBlocks(nodes, shape, ext, st, live, pcs)
    ensures Linked(nodes, shape, pc.cur, pc.search.addr) && Committed(pc)
    ensures pc.search.grant in live && live[pc.search.grant].addr == pc.search.addr
    ensures pc.search.addr in ext && pc.search.addr in st && st[pc.search.addr] == Live(pc.search.grant)
    ensures live[pc.search.grant].held <= nodes[pc.cur].mask
    ensures Engaged(pc.search) <= nodes[pc.cur].mask
    ensures Uses(pc.search) !! live[pc.search.grant].held
  {
    assert CallOk(nodes, shape, live, pc);
    assert GrantOk(nextGrant, inserted, ext, st, pc.search.grant, live[pc.search.grant]);
    assert NodeOk(nodes[pc.cur], ext, st, live, pcs);
  }

  /** Grants may lose and gain bits; where the blocks are does not change. */
  lemma {:induction false} GrantsHeld(nextGrant: nat, inserted: set<nat>, ext: map<nat, nat>, st: map<nat, Status>,
      live: map<nat, Grant>, g: nat, held: Mask)
    requires GrantsInv(nextGrant, inserted, ext, st, live) && g in live
    ensures GrantsInv(nextGrant, inserted, ext, st, live[g := live[g].(held := held)])
  {
    var after := live[g := live[g].(held := held)];
    forall h | h in after ensures GrantOk(nextGrant, inserted, ext, st, h, after[h]) {
      assert GrantOk(nextGrant, inserted, ext, st, h, live[h]);
    }
    forall a | a in st ensures LiveOk(st, after, a) { assert LiveOk(st, live, a); }
  }

  /** The record of the block of `g` changes its mask, and `g` its bits; no other record or grant changes. */
  lemma {:induction false} NodesRemask(root: Ptr, nodes: Nodes, shape: Shape, ext: map<nat, nat>, st: map<nat, Status>,
      live: map<nat, Grant>, pcs: map<nat, Pc>, nextGrant: nat, inserted: set<nat>, t: nat, to: Pc, g: nat, cur: Ptr,
          mask: Mask, held: Mask)
    requires Rep(nodes, root, shape, -1, WORD) && NodeBlocks(nodes, shape, ext, st, live, pcs)
    requires GrantsInv(nextGrant, inserted, ext, st, live)
    requires t in pcs && !pcs[t].Inc? && !to.Inc?
    requires g in live && Linked(nodes, shape, cur, live[g].addr)
    requires held <= mask
    ensures NodeBlocks(WithMask(nodes, cur, mask), shape, ext, st, live[g := live[g].(held := held)], pcs[t := to])
  {
    var b, after := WithMask(nodes, cur, mask), live[g := live[g].(held := held)];
    assert GrantOk(nextGrant, inserted, ext, st, g, live[g]);
    forall p | p in Ptrs(shape) && p in b ensures NodeOk(b[p], ext, st, after, pcs[t := to]) {
      assert NodeOk(nodes[p], ext, st, live, pcs);
      assert LiveOk(st, live, nodes[p].addr);
      if p != cur && nodes[p].addr == live[g].addr { UniqueKey(nodes, root, shape, -1, WORD, p, cur); }
    }
  }

  lemma {:induction false} CallsRemask(nodes: Nodes, shape: Shape, live: map<nat, Grant>, pcs: map<nat, Pc>, t: nat,
      pc: Pc, to: Pc, mask: Mask, held: Mask, nextGrant: nat, inserted: set<nat>, ext: map<nat, nat>,
          st: map<nat, Status>)
    requires CallsInv(nodes, shape, live, pcs) && t in pcs && pcs[t] == pc && Committed(pc) && !Committed(to)
    requires GrantsInv(nextGrant, inserted, ext, st, live)
    requires pc.search.grant in live && live[pc.search.grant].addr == pc.search.addr
    requires pc.FindAt? || pc.ShareOr? || pc.ClearCas?
    requires Linked(nodes, shape, pc.cur, pc.search.addr)
    requires nodes[pc.cur].mask - Uses(pc.search) <= mask
    requires held <= live[pc.search.grant].held + Uses(pc.search)
    ensures CallsInv(WithMask(nodes, pc.cur, mask), shape,
            live[pc.search.grant := live[pc.search.grant].(held := held)], pcs[t := to])
  {
    var g := pc.search.grant;
    var b, after := WithMask(nodes, pc.cur, mask), live[g := live[g].(held := held)];
    assert GrantOk(nextGrant, inserted, ext, st, g, live[g]);
    forall u | u in pcs && u != t ensures CallOk(b, shape, after, pcs[u]) {
      assert CallOk(nodes, shape, live, pcs[u]);
      if Committed(pcs[u]) {
        var q := pcs[u].search;
        assert GrantOk(nextGrant, inserted, ext, st, q.grant, live[q.grant]);
        assert q.grant == g ==> Uses(pcs[t].search) !! Uses(pcs[u].search);
        forall p | Linked(b, shape, p, q.addr) ensures Engaged(q) <= b[p].mask {
          assert Linked(nodes, shape, p, q.addr);
        }
      }
    }
    forall x, y | x in pcs && y in pcs && x != y && x != t && y != t && Committed(pcs[x]) && Committed(pcs[y])
                  && pcs[x].search.grant == pcs[y].search.grant
      ensures Uses(pcs[x].search) !! Uses(pcs[y].search)
    {
    }
  }

  /** A call ends by changing the mask of its block and returning bits to the callers. */
  lemma {:induction false} Remask(c: Config, s: State, v: View, t: nat, pc: Pc, mask: Mask, held: Mask)
    requires v in Views(c, s) && t in s.pcs && s.pcs[t] == pc && (pc.ShareOr? || pc.ClearCas?)
    requires pc.search.ForLookup? || pc.search.grant !in s.live ||
             (NodeAt(s.nodes, pc.cur).mask - Uses(pc.search) <= mask
              && held <= s.live[pc.search.grant].held + Uses(pc.search) && held <= mask)
    ensures !pc.search.ForLookup? && pc.search.grant in s.live
    ensures Good(c, Goto(s.(nodes := WithMask(s.nodes, pc.cur, mask),
                            live := s.live[pc.search.grant := s.live[pc.search.grant].(held := held)]), t, Idle))
  {
    assert TreePc(s.root, s.nodes, v.shape, pc);
    CallKnows(s.root, s.nodes, v.shape, s.nextGrant, s.inserted, v.ext, v.st, s.live, s.pcs, t, pc);
    var b, g := WithMask(s.nodes, pc.cur, mask), pc.search.grant;
    GrantsHeld(s.nextGrant, s.inserted, v.ext, v.st, s.live, g, held);
    NodesRemask(s.root, s.nodes, v.shape, v.ext, v.st, s.live, s.pcs, s.nextGrant, s.inserted, t, Idle, g, pc.cur, mask,
        held);
    CallsRemask(s.nodes, v.shape, s.live, s.pcs, t, pc, Idle, mask, held, s.nextGrant, s.inserted, v.ext, v.st);
    RemaskRest(c, s, v, t, pc, mask);
    assert v in Views(c, Goto(s.(nodes := b, live := s.live[g := s.live[g].(held := held)]), t, Idle));
  }

  lemma {:induction false} TreeRemask(root: Ptr, nodes: Nodes, shape: Shape, inserted: set<nat>, pcs: map<nat, Pc>,
      cur: Ptr, mask: Mask)
    requires TreeInv(root, nodes, shape, inserted, pcs) && cur in nodes
    ensures TreeInv(root, WithMask(nodes, cur, mask), shape, inserted, pcs)
  {
    TreeFrame(root, nodes, WithMask(nodes, cur, mask), shape, inserted, pcs);
  }

  lemma {:induction false} OwnersRemask(root: Ptr, nodes: Nodes, shape: Shape, inserted: set<nat>, head: Ptr,
      slots: Slots, chain: seq<Ptr>, ext: map<nat, nat>, st: map<nat, Status>, pcs: map<nat, Pc>, t: nat, pc: Pc,
          mask: Mask)
    requires TreeInv(root, nodes, shape, inserted, pcs) && ListInv(head, slots, chain, pcs)
    requires OwnersInv(nodes, slots, ext, st, pcs) && t in pcs && pcs[t] == pc && (pc.ShareOr? || pc.ClearCas?)
    requires pc.cur in nodes && pc.cur in Ptrs(shape)
    ensures OwnersInv(WithMask(nodes, pc.cur, mask), slots, ext, st, pcs[t := Idle])
  {
    var b := WithMask(nodes, pc.cur, mask);
    LinkedNotInHand(root, nodes, b, shape, inserted, slots, pcs, pc.cur);
    OwnersFrame(root, nodes, b, shape, inserted, head, slots, slots, chain, ext, st, pcs);
    OwnersMove(b, slots, ext, st, pcs, t, Idle);
  }

  /** The parts of the invariant that a mask does not enter. */
  lemma {:induction false} RemaskRest(c: Config, s: State, v: View, t: nat, pc: Pc, mask: Mask)
    requires v in Views(c, s) && t in s.pcs && s.pcs[t] == pc && (pc.ShareOr? || pc.ClearCas?)
    requires pc.cur in s.nodes && pc.cur in Ptrs(v.shape)
    ensures MetaInv(c, WithMask(s.nodes, pc.cur, mask), s.slots, s.nodeBump)
    ensures TreeInv(s.root, WithMask(s.nodes, pc.cur, mask), v.shape, s.inserted, s.pcs[t := Idle])
    ensures ListInv(s.head, s.slots, v.chain, s.pcs[t := Idle])
    ensures OwnersInv(WithMask(s.nodes, pc.cur, mask), s.slots, v.ext, v.st, s.pcs[t := Idle])
  {
    TreeRemask(s.root, s.nodes, v.shape, s.inserted, s.pcs, pc.cur, mask);
    TreeMove(s.root, WithMask(s.nodes, pc.cur, mask), v.shape, s.inserted, s.pcs, t, Idle);
    ListMove(s.head, s.slots, v.chain, s.pcs, t, Idle);
    OwnersRemask(s.root, s.nodes, v.shape, s.inserted, s.head, s.slots, v.chain, v.ext, v.st, s.pcs, t, pc, mask);
    MetaSameKeys(c, s.nodes, WithMask(s.nodes, pc.cur, mask), s.slots, s.slots, s.nodeBump);
  }

  lemma {:induction false} StepShareOr(c: Config, s: State, v: View, t: nat, pc: Pc)
    requires v in Views(c, s) && t in s.pcs && s.pcs[t] == pc && pc.ShareOr?
    ensures Good(c, DoShareOr(s, t, pc))
  {
    assert TreePc(s.root, s.nodes, v.shape, pc);
    CallKnows(s.root, s.nodes, v.shape, s.nextGrant, s.inserted, v.ext, v.st, s.live, s.pcs, t, pc);
    var q := pc.search;
    Remask(c, s, v, t, pc, s.nodes[pc.cur].mask + q.bits, s.live[q.grant].held + ({q.hold} + q.bits));
  }

  lemma {:induction false} StepClearKeep(c: Config, s: State, v: View, t: nat, pc: Pc)
    requires v in Views(c, s) && t in s.pcs && s.pcs[t] == pc && pc.ClearCas? && pc.search.ForFree?
    requires NodeAt(s.nodes, pc.cur).mask == pc.seen && pc.seen - pc.search.bits != {}
    ensures Good(c, Goto(s.(nodes := WithMask(s.nodes, pc.cur, pc.seen - pc.search.bits)), t, Idle))
  {
    assert TreePc(s.root, s.nodes, v.shape, pc);
    CallKnows(s.root, s.nodes, v.shape, s.nextGrant, s.inserted, v.ext, v.st, s.live, s.pcs, t, pc);
    var g := pc.search.grant;
    Remask(c, s, v, t, pc, pc.seen - pc.search.bits, s.live[g].held);
    assert s.live[g := s.live[g].(held := s.live[g].held)] == s.live;
  }

  // ---- The last owner leaves ----------------------------------------------------------------------------------

  /** Another call in progress on the same block has a bit that this release does not clear. */
  lemma {:induction false} OtherCallLeavesABit(nodes: Nodes, shape: Shape, live: map<nat, Grant>, pcs: map<nat, Pc>,
      t: nat, pc: Pc, u: nat)
    requires CallsInv(nodes, shape, live, pcs) && t in pcs && pcs[t] == pc && pc.ClearCas? && pc.search.ForFree?
    requires Linked(nodes, shape, pc.cur, pc.search.addr) && pc.search.grant in live
    requires live[pc.search.grant].addr == pc.search.addr
    requires u in pcs && u != t && CommittedTo(pcs[u], pc.search.grant)
    ensures nodes[pc.cur].mask - pc.search.bits != {}
  {
    assert CallOk(nodes, shape, live, pcs[u]);
    assert Uses(pcs[t].search) !! Uses(pcs[u].search);
    var b :| b in Engaged(pcs[u].search);
    assert b in nodes[pc.cur].mask - pc.search.bits;
  }

  /** Whoever clears the last bit is alone: no caller holds a bit and no other call is in progress on the block. */
  lemma {:induction false} LastOwnerIsAlone(nodes: Nodes, shape: Shape, live: map<nat, Grant>, pcs: map<nat, Pc>,
      t: nat, pc: Pc)
    requires CallsInv(nodes, shape, live, pcs) && t in pcs && pcs[t] == pc && pc.ClearCas? && pc.search.ForFree?
    requires Linked(nodes, shape, pc.cur, pc.search.addr) && pc.search.grant in live
    requires live[pc.search.grant].held <= nodes[pc.cur].mask && Uses(pc.search) !! live[pc.search.grant].held
    requires nodes[pc.cur].mask - pc.search.bits == {}
    requires live[pc.search.grant].addr == pc.search.addr
    ensures live[pc.search.grant].held == {}
    ensures forall u :: u in pcs && u != t ==> !CommittedTo(pcs[u], pc.search.grant)
  {
    forall u | u in pcs && u != t ensures !CommittedTo(pcs[u], pc.search.grant) {
      if CommittedTo(pcs[u], pc.search.grant) { OtherCallLeavesABit(nodes, shape, live, pcs, t, pc, u); }
    }
  }

  lemma {:induction false} GrantsEnd(nextGrant: nat, inserted: set<nat>, ext: map<nat, nat>, st: map<nat, Status>,
      live: map<nat, Grant>, g: nat, o: Status)
    requires GrantsInv(nextGrant, inserted, ext, st, live) && g in live && !o.Live?
    ensures live[g].addr in st
    ensures GrantsInv(nextGrant, inserted, ext, st[live[g].addr := o], live - {g})
  {
    assert GrantOk(nextGrant, inserted, ext, st, g, live[g]);
    forall h | h in live - {g} ensures GrantOk(nextGrant, inserted, ext, st[live[g].addr := o], h, (live - {g})[h]) {
      assert GrantOk(nextGrant, inserted, ext, st, h, live[h]);
    }
    forall a | a in st ensures LiveOk(st[live[g].addr := o], live - {g}, a) { assert LiveOk(st, live, a); }
  }

  lemma {:induction false} NodesEnd(root: Ptr, nodes: Nodes, shape: Shape, ext: map<nat, nat>, st: map<nat, Status>,
      live: map<nat, Grant>, pcs: map<nat, Pc>, nextGrant: nat, inserted: set<nat>, t: nat, to: Pc, g: nat, cur: Ptr)
    requires Rep(nodes, root, shape, -1, WORD) && NodeBlocks(nodes, shape, ext, st, live, pcs)
    requires GrantsInv(nextGrant, inserted, ext, st, live)
    requires t in pcs && !pcs[t].Inc? && !to.Inc?
    requires forall b :: b in st ==> st[b] != Busy(t)
    requires g in live && Linked(nodes, shape, cur, live[g].addr)
    ensures NodeBlocks(WithMask(nodes, cur, {}), shape, ext, st[live[g].addr := Busy(t)], live - {g}, pcs[t := to])
  {
    var b, after := WithMask(nodes, cur, {}), st[live[g].addr := Busy(t)];
    assert GrantOk(nextGrant, inserted, ext, st, g, live[g]);
    forall p | p in Ptrs(shape) && p in b ensures NodeOk(b[p], ext, after, live - {g}, pcs[t := to]) {
      assert NodeOk(nodes[p], ext, st, live, pcs);
      assert LiveOk(st, live, nodes[p].addr);
      if p != cur && nodes[p].addr == live[g].addr { UniqueKey(nodes, root, shape, -1, WORD, p, cur); }
    }
  }

  lemma {:induction false} CallsEnd(nodes: Nodes, shape: Shape, live: map<nat, Grant>, pcs: map<nat, Pc>, t: nat,
      to: Pc, g: nat, cur: Ptr, nextGrant: nat, inserted: set<nat>, ext: map<nat, nat>, st: map<nat, Status>)
    requires CallsInv(nodes, shape, live, pcs) && t in pcs && !Committed(to)
    requires GrantsInv(nextGrant, inserted, ext, st, live)
    requires g in live && Linked(nodes, shape, cur, live[g].addr)
    requires forall u :: u in pcs && u != t ==> !CommittedTo(pcs[u], g)
    ensures CallsInv(WithMask(nodes, cur, {}), shape, live - {g}, pcs[t := to])
  {
    var b := WithMask(nodes, cur, {});
    assert GrantOk(nextGrant, inserted, ext, st, g, live[g]);
    forall u | u in pcs && u != t ensures CallOk(b, shape, live - {g}, pcs[u]) {
      assert CallOk(nodes, shape, live, pcs[u]);
      assert !CommittedTo(pcs[u], g);
      if Committed(pcs[u]) {
        var q := pcs[u].search;
        assert GrantOk(nextGrant, inserted, ext, st, q.grant, live[q.grant]);
        forall p | Linked(b, shape, p, q.addr) ensures Engaged(q) <= b[p].mask {
          assert Linked(nodes, shape, p, q.addr);
        }
      }
    }
    forall x, y | x in pcs && y in pcs && x != y && x != t && y != t && Committed(pcs[x]) && Committed(pcs[y])
                  && pcs[x].search.grant == pcs[y].search.grant
      ensures Uses(pcs[x].search) !! Uses(pcs[y].search)
    {
    }
  }

  lemma {:induction false} OwnersEnd(c: Config, bump: nat, root: Ptr, nodes: Nodes, shape: Shape, inserted: set<nat>,
      head: Ptr, slots: Slots, chain: seq<Ptr>, ext: map<nat, nat>, st: map<nat, Status>, pcs: map<nat, Pc>, t: nat,
          pc: Pc, a: nat)
    requires c.WellFormed() && ExtInv(c, bump, ext)
    requires TreeInv(root, nodes, shape, inserted, pcs) && ListInv(head, slots, chain, pcs)
    requires OwnersInv(nodes, slots, ext, st, pcs) && t in pcs && pcs[t] == pc && pc.ClearCas?
    requires pc.cur in nodes && pc.cur in Ptrs(shape) && nodes[pc.cur].addr == a && a in st && st[a].Live?
    ensures forall b :: b in st ==> st[b] != Busy(t)
    ensures OwnersInv(WithMask(nodes, pc.cur, {}), slots, ext, st[a := Busy(t)], pcs[t := NewSlot(pc.cur)])
  {
    var b := WithMask(nodes, pc.cur, {});
    NoExtentAtZero(c, bump, nodes, slots, ext, st, pcs);
    OnlyInHand(nodes, slots, ext, st, pcs, t);
    LinkedNotInHand(root, nodes, b, shape, inserted, slots, pcs, pc.cur);
    OwnersFrame(root, nodes, b, shape, inserted, head, slots, slots, chain, ext, st, pcs);
    OwnersChange(b, slots, ext, st, pcs, t, a, Busy(t), NewSlot(pc.cur));
  }

  lemma {:induction false} TreeEnd(root: Ptr, nodes: Nodes, shape: Shape, inserted: set<nat>, pcs: map<nat, Pc>, t: nat,
      cur: Ptr)
    requires TreeInv(root, nodes, shape, inserted, pcs) && t in pcs && cur in nodes && cur in Ptrs(shape)
    ensures TreeInv(root, WithMask(nodes, cur, {}), shape, inserted, pcs[t := NewSlot(cur)])
  {
    TreeRemask(root, nodes, shape, inserted, pcs, cur, {});
    TreeMove(root, WithMask(nodes, cur, {}), shape, inserted, pcs, t, NewSlot(cur));
  }

  lemma {:induction false} StepClearLast(c: Config, s: State, v: View, t: nat, pc: Pc)
    requires v in Views(c, s) && t in s.pcs && s.pcs[t] == pc && pc.ClearCas? && pc.search.ForFree?
    requires NodeAt(s.nodes, pc.cur).mask == pc.seen && pc.seen - pc.search.bits == {}
    ensures Good(c,
            Goto(s.(nodes := WithMask(s.nodes, pc.cur, {}), live := s.live - {pc.search.grant}), t, NewSlot(pc.cur)))
  {
    assert TreePc(s.root, s.nodes, v.shape, pc);
    CallKnows(s.root, s.nodes, v.shape, s.nextGrant, s.inserted, v.ext, v.st, s.live, s.pcs, t, pc);
    var g, a := pc.search.grant, pc.search.addr;
    LastOwnerIsAlone(s.nodes, v.shape, s.live, s.pcs, t, pc);
    OwnersEnd(c, s.bump, s.root, s.nodes, v.shape, s.inserted, s.head, s.slots, v.chain, v.ext, v.st, s.pcs, t, pc, a);
    TreeEnd(s.root, s.nodes, v.shape, s.inserted, s.pcs, t, pc.cur);
    ListMove(s.head, s.slots, v.chain, s.pcs, t, NewSlot(pc.cur));
    ChainBlocksChange(s.slots, v.chain, v.ext, v.st, a, Busy(t));
    GrantsEnd(s.nextGrant, s.inserted, v.ext, v.st, s.live, g, Busy(t));
    NodesEnd(s.root, s.nodes, v.shape, v.ext, v.st, s.live, s.pcs, s.nextGrant, s.inserted, t, NewSlot(pc.cur), g,
        pc.cur);
    CallsEnd(s.nodes, v.shape, s.live, s.pcs, t, NewSlot(pc.cur), g, pc.cur, s.nextGrant, s.inserted, v.ext, v.st);
    MetaSameKeys(c, s.nodes, WithMask(s.nodes, pc.cur, {}), s.slots, s.slots, s.nodeBump);
    assert v.(st := v.st[a := Busy(t)])
        in Views(c, Goto(s.(nodes := WithMask(s.nodes, pc.cur, {}), live := s.live - {g}), t, NewSlot(pc.cur)));
  }

  // ---- Calls begin ------------------------------------------------------------------------------------------------

  lemma {:induction false} BeginAlloc(c: Config, s: State, v: View, t: nat, size: nat, mask: Mask)
    requires v in Views(c, s) && t in s.pcs && s.pcs[t].Idle? && 0 < size <= WORD - 8
    ensures Good(c, Begin(s, t, CallAlloc(size, mask)))
  {
    StandGood(c, s, v, t, PopHead(AlignUp(size, 8), mask));
  }

  lemma {:induction false} BeginLookup(c: Config, s: State, v: View, t: nat, addr: nat)
    requires v in Views(c, s) && t in s.pcs && s.pcs[t].Idle?
    ensures Good(c, Begin(s, t, CallLookup(addr)))
  {
    assert addr in s.inserted <==> HasKey(s.nodes, v.shape, addr);
    StandGood(c, s, v, t, FindRoot(ForLookup(addr, addr in s.inserted)));
  }

  lemma {:induction false} NodesTake(nodes: Nodes, shape: Shape, ext: map<nat, nat>, st: map<nat, Status>,
      live: map<nat, Grant>, pcs: map<nat, Pc>, t: nat, to: Pc, g: nat, held: Mask)
    requires NodeBlocks(nodes, shape, ext, st, live, pcs) && t in pcs && !pcs[t].Inc? && !to.Inc?
    requires g in live && held <= live[g].held
    ensures NodeBlocks(nodes, shape, ext, st, live[g := live[g].(held := held)], pcs[t := to])
  {
    forall p | p in Ptrs(shape) && p in nodes
      ensures NodeOk(nodes[p], ext, st, live[g := live[g].(held := held)], pcs[t := to])
    {
      assert NodeOk(nodes[p], ext, st, live, pcs);
    }
  }

  lemma {:induction false} CallsTake(nodes: Nodes, shape: Shape, ext: map<nat, nat>, st: map<nat, Status>,
      live: map<nat, Grant>, pcs: map<nat, Pc>, nextGrant: nat, inserted: set<nat>, t: nat, q: Search)
    requires CallsInv(nodes, shape, live, pcs) && NodeBlocks(nodes, shape, ext, st, live, pcs)
    requires GrantsInv(nextGrant, inserted, ext, st, live)
    requires t in pcs && !q.ForLookup? && q.grant in live && q.addr == live[q.grant].addr
    requires Engaged(q) != {} && Engaged(q) <= live[q.grant].held
    requires Uses(q) - Engaged(q) !! live[q.grant].held
    requires forall u :: u in pcs && CommittedTo(pcs[u], q.grant) ==> Uses(q) - Engaged(q) !! Uses(pcs[u].search)
    ensures CallsInv(nodes, shape, live[q.grant := live[q.grant].(held := live[q.grant].held - Engaged(q))],
            pcs[t := FindRoot(q)])
  {
    var g := q.grant;
    var after := live[g := live[g].(held := live[g].held - Engaged(q))];
    assert GrantOk(nextGrant, inserted, ext, st, g, live[g]);
    forall p | Linked(nodes, shape, p, q.addr) ensures Engaged(q) <= nodes[p].mask {
      assert NodeOk(nodes[p], ext, st, live, pcs);
    }
    assert CallOk(nodes, shape, after, FindRoot(q));
    forall u | u in pcs && u != t ensures CallOk(nodes, shape, after, pcs[u]) {
      assert CallOk(nodes, shape, live, pcs[u]);
    }
    forall u | u in pcs && CommittedTo(pcs[u], g) ensures Uses(q) !! Uses(pcs[u].search) {
      assert CallOk(nodes, shape, live, pcs[u]);
      assert Uses(q) <= Engaged(q) + (Uses(q) - Engaged(q));
    }
    forall x, y | x in pcs && y in pcs && x != y && x != t && y != t && Committed(pcs[x]) && Committed(pcs[y])
                  && pcs[x].search.grant == pcs[y].search.grant
      ensures Uses(pcs[x].search) !! Uses(pcs[y].search)
    {
    }
  }

  /** A call on a grant begins: the caller entrusts its bits to the call. */
  lemma {:induction false} BeginCall(c: Config, s: State, v: View, t: nat, q: Search)
    requires v in Views(c, s) && t in s.pcs && s.pcs[t].Idle?
    requires !q.ForLookup? && q.grant in s.live && q.addr == s.live[q.grant].addr
    requires Engaged(q) != {} && Engaged(q) <= s.live[q.grant].held
    requires Uses(q) - Engaged(q) !! s.live[q.grant].held
    requires forall u :: u in s.pcs && CommittedTo(s.pcs[u], q.grant) ==> Uses(q) - Engaged(q) !! Uses(s.pcs[u].search)
    ensures Good(c, Goto(TakeHeld(s, q.grant, Engaged(q)), t, FindRoot(q)))
  {
    var g := q.grant;
    var held := s.live[g].held - Engaged(q);
    assert GrantOk(s.nextGrant, s.inserted, v.ext, v.st, g, s.live[g]);
    assert TreePc(s.root, s.nodes, v.shape, FindRoot(q)) by {
      assert HasKey(s.nodes, v.shape, q.addr) <==> q.addr in s.inserted;
    }
    TreeMove(s.root, s.nodes, v.shape, s.inserted, s.pcs, t, FindRoot(q));
    ListMove(s.head, s.slots, v.chain, s.pcs, t, FindRoot(q));
    OwnersMove(s.nodes, s.slots, v.ext, v.st, s.pcs, t, FindRoot(q));
    GrantsHeld(s.nextGrant, s.inserted, v.ext, v.st, s.live, g, held);
    NodesTake(s.nodes, v.shape, v.ext, v.st, s.live, s.pcs, t, FindRoot(q), g, held);
    CallsTake(s.nodes, v.shape, v.ext, v.st, s.live, s.pcs, s.nextGrant, s.inserted, t, q);
    assert v in Views(c, Goto(TakeHeld(s, g, Engaged(q)), t, FindRoot(q)));
  }

  lemma {:induction false} StepStart(c: Config, s: State, v: View, t: nat, call: Call)
    requires v in Views(c, s) && t in s.pcs && s.pcs[t].Idle? && Allowed(s, call)
    ensures Good(c, Begin(s, t, call))
  {
    match call
    case CallAlloc(size, mask) => BeginAlloc(c, s, v, t, size, mask);
    case CallLookup(addr) => BeginLookup(c, s, v, t, addr);
    case CallShare(g, hold, bits) =>
      var q := ForShare(g, s.live[g].addr, hold, NormalizeMask(bits));
      assert Uses(q) - Engaged(q) <= NormalizeMask(bits);
      BeginCall(c, s, v, t, q);
    case CallFree(g, bits) =>
      var q := ForFree(g, s.live[g].addr, bits);
      assert Uses(q) - Engaged(q) == {};
      BeginCall(c, s, v, t, q);
  }
}
