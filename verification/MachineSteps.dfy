/** Every legal move that is not a stale pop keeps the invariant. */
module MachineSteps {
  import opened Words
  import opened Layout
  import opened SearchTree
  import opened FreeStack
  import opened Machine
  import opened MachineInvariant

  // ---- A thread moves and one part of the state stands still ------------------------------------

  lemma {:induction false} TreeMove(root: Ptr, nodes: Nodes, shape: Shape, inserted: set<nat>, pcs: map<nat, Pc>,
      t: nat, pc: Pc)
    requires TreeInv(root, nodes, shape, inserted, pcs) && t in pcs
    requires TreePc(root, nodes, shape, pc)
    requires PrivateNode(pc) != NIL ==> forall u :: u in pcs && u != t ==> PrivateNode(pcs[u]) != PrivateNode(pc)
    ensures TreeInv(root, nodes, shape, inserted, pcs[t := pc])
  {
  }

  lemma {:induction false} ListMove(head: Ptr, slots: Slots, chain: seq<Ptr>, pcs: map<nat, Pc>, t: nat, pc: Pc)
    requires ListInv(head, slots, chain, pcs) && t in pcs
    requires ListPc(slots, chain, pc)
    requires PrivateSlot(pc) != NIL ==> forall u :: u in pcs && u != t ==> PrivateSlot(pcs[u]) != PrivateSlot(pc)
    ensures ListInv(head, slots, chain, pcs[t := pc])
  {
  }

  lemma {:induction false} OwnersMove(nodes: Nodes, slots: Slots, ext: map<nat, nat>, st: map<nat, Status>,
      pcs: map<nat, Pc>, t: nat, pc: Pc)
    requires OwnersInv(nodes, slots, ext, st, pcs) && t in pcs
    requires BlockPc(nodes, slots, ext, st, t, pc)
    requires Owned(nodes, slots, pc) == Owned(nodes, slots, pcs[t])
    ensures OwnersInv(nodes, slots, ext, st, pcs[t := pc])
  {
    forall a | a in st ensures BusyOk(nodes, slots, st, pcs[t := pc], a) { assert BusyOk(nodes, slots, st, pcs, a); }
  }

  lemma {:induction false} NodesMove(nodes: Nodes, shape: Shape, ext: map<nat, nat>, st: map<nat, Status>,
      live: map<nat, Grant>, pcs: map<nat, Pc>, t: nat, pc: Pc)
    requires NodeBlocks(nodes, shape, ext, st, live, pcs) && t in pcs
    requires !pc.Inc? && !pcs[t].Inc?
    ensures NodeBlocks(nodes, shape, ext, st, live, pcs[t := pc])
  {
    forall p | p in Ptrs(shape) && p in nodes ensures NodeOk(nodes[p], ext, st, live, pcs[t := pc]) {
      assert NodeOk(nodes[p], ext, st, live, pcs);
    }
  }

  lemma {:induction false} CallsMove(nodes: Nodes, shape: Shape, live: map<nat, Grant>, pcs: map<nat, Pc>, t: nat,
      pc: Pc)
    requires CallsInv(nodes, shape, live, pcs) && t in pcs
    requires Committed(pc) ==> Committed(pcs[t]) && pc.search == pcs[t].search
    ensures CallsInv(nodes, shape, live, pcs[t := pc])
  {
    assert CallOk(nodes, shape, live, pc) by { assert CallOk(nodes, shape, live, pcs[t]); }
  }

  /** A move that changes nothing but where the thread stands. */
  lemma {:induction false} StandStill(c: Config, s: State, v: View, t: nat, pc: Pc)
    requires Inv(c, s, v) && t in s.pcs
    requires TreePc(s.root, s.nodes, v.shape, pc)
    requires ListPc(s.slots, v.chain, pc)
    requires BlockPc(s.nodes, s.slots, v.ext, v.st, t, pc)
    requires PrivateNode(pc) != NIL ==> forall u :: u in s.pcs && u != t ==> PrivateNode(s.pcs[u]) != PrivateNode(pc)
    requires PrivateSlot(pc) != NIL ==> forall u :: u in s.pcs && u != t ==> PrivateSlot(s.pcs[u]) != PrivateSlot(pc)
    requires Owned(s.nodes, s.slots, pc) == Owned(s.nodes, s.slots, s.pcs[t])
    requires !pc.Inc? && !s.pcs[t].Inc?
    requires Committed(pc) ==> Committed(s.pcs[t]) && pc.search == s.pcs[t].search
    ensures Inv(c, Goto(s, t, pc), v)
  {
    TreeMove(s.root, s.nodes, v.shape, s.inserted, s.pcs, t, pc);
    ListMove(s.head, s.slots, v.chain, s.pcs, t, pc);
    OwnersMove(s.nodes, s.slots, v.ext, v.st, s.pcs, t, pc);
    NodesMove(s.nodes, v.shape, v.ext, v.st, s.live, s.pcs, t, pc);
    CallsMove(s.nodes, v.shape, s.live, s.pcs, t, pc);
  }

  // ---- The tree changes and the threads stand still ---------------------------------------------

  lemma {:induction false} TreePcFrame(root: Ptr, a: Nodes, b: Nodes, shape: Shape, pc: Pc)
    requires Rep(a, root, shape, -1, WORD)
    requires TreePc(root, a, shape, pc)
    requires Keeps(a, b)
    ensures TreePc(root, b, shape, pc)
  {
    RepBounds(a, root, shape, -1, WORD);
    match pc
    case InsAt(ins, cur) => OnPathFrame(a, b, shape, a[ins.node].addr, cur);
    case InsCas(ins, cur) => OnPathFrame(a, b, shape, a[ins.node].addr, cur);
    case Inc(_, addr, _) => HasKeyFrame(a, b, shape, addr);
    case FindRoot(q) => if MustFind(q) { HasKeyFrame(a, b, shape, q.addr); }
    case FindAt(q, cur) =>
      OnPathFrame(a, b, shape, q.addr, cur);
      if MustFind(q) { HasKeyFrame(a, b, shape, q.addr); }
    case Looked(addr, _, found) => if found { HasKeyFrame(a, b, shape, addr); }
    case _ =>
  }

  /** New records and new masks do not disturb the tree or any search in it. */
  lemma {:induction false} TreeFrame(root: Ptr, a: Nodes, b: Nodes, shape: Shape, inserted: set<nat>, pcs: map<nat, Pc>)
    requires TreeInv(root, a, shape, inserted, pcs)
    requires Keeps(a, b)
    ensures TreeInv(root, b, shape, inserted, pcs)
  {
    RepBounds(a, root, shape, -1, WORD);
    RepFrame(a, b, root, shape, -1, WORD);
    forall t | t in pcs ensures TreePc(root, b, shape, pcs[t]) {
      TreePcFrame(root, a, b, shape, pcs[t]);
    }
    forall k ensures k in inserted <==> HasKey(b, shape, k) {
      if HasKey(a, shape, k) { HasKeyFrame(a, b, shape, k); }
      if HasKey(b, shape, k) {
        var p :| p in Ptrs(shape) && p in b && b[p].addr == k;
        assert p in a && a[p].addr == k;
      }
    }
  }

  lemma {:induction false} LostOnceGrow(root: Ptr, nodes: Nodes, k: nat, c: Ptr, n: Ptr, lost: seq<Link>)
    requires LostOnce(root, nodes, lost)
    requires c in nodes && n != NIL
    ensures LostOnce(root, SetChild(nodes, c, k, n), lost)
  {
  }

  lemma {:induction false} TreePcGrow(root: Ptr, nodes: Nodes, shape: Shape, k: nat, c: Ptr, n: Ptr, pc: Pc)
    requires CanLink(root, nodes, shape, k, c, n)
    requires TreePc(root, nodes, shape, pc)
    requires PrivateNode(pc) != n
    ensures TreePc(root, SetChild(nodes, c, k, n), Grow(nodes, shape, k, n), pc)
  {
    var after, grown := SetChild(nodes, c, k, n), Grow(nodes, shape, k, n);
    RepBounds(nodes, root, shape, -1, WORD);
    GrowPtrs(nodes, root, shape, -1, WORD, k, n);
    OnPathIn(nodes, shape, k, c);
    if PrivateNode(pc) != NIL {
      LostOnceGrow(root, nodes, k, c, n, pc.ins.lost);
      assert InsertionOk(root, after, grown, pc.ins);
    }
    match pc
    case InsAt(ins, cur) => GrowKeepsPaths(nodes, shape, k, n, after, nodes[ins.node].addr, cur);
    case InsCas(ins, cur) => GrowKeepsPaths(nodes, shape, k, n, after, nodes[ins.node].addr, cur);
    case Inc(_, addr, _) => HasKeyGrow(root, nodes, shape, k, c, n, addr);
    case FindRoot(q) => HasKeyGrow(root, nodes, shape, k, c, n, q.addr);
    case FindAt(q, cur) =>
      HasKeyGrow(root, nodes, shape, k, c, n, q.addr);
      GrowKeepsPaths(nodes, shape, k, n, after, q.addr, cur);
    case Looked(addr, _, _) => HasKeyGrow(root, nodes, shape, k, c, n, addr);
    case _ =>
  }

  /** Linking a record keeps the tree a search tree and every other search on its path. */
  lemma {:induction false} TreeGrow(root: Ptr, nodes: Nodes, shape: Shape, inserted: set<nat>, pcs: map<nat, Pc>,
                 t: nat, k: nat, c: Ptr, n: Ptr, pc: Pc)
    requires TreeInv(root, nodes, shape, inserted, pcs) && t in pcs
    requires CanLink(root, nodes, shape, k, c, n)
    requires PrivateNode(pcs[t]) == n && pc.Inc? && pc.addr == k
    ensures TreeInv(root, SetChild(nodes, c, k, n), Grow(nodes, shape, k, n), inserted + {k}, pcs[t := pc])
  {
    var after, grown := SetChild(nodes, c, k, n), Grow(nodes, shape, k, n);
    GrowRep(nodes, root, shape, -1, WORD, k, c, n);
    forall j ensures j in inserted + {k} <==> HasKey(after, grown, j) {
      HasKeyGrow(root, nodes, shape, k, c, n, j);
    }
    forall u | u in pcs && u != t ensures TreePc(root, after, grown, pcs[u]) {
      TreePcGrow(root, nodes, shape, k, c, n, pcs[u]);
    }
  }

  lemma {:induction false} TreePlant(nodes: Nodes, shape: Shape, inserted: set<nat>, pcs: map<nat, Pc>, t: nat, n: Ptr,
      pc: Pc)
    requires TreeInv(NIL, nodes, shape, inserted, pcs) && t in pcs
    requires pcs[t].InsRootCas? && pcs[t].ins.node == n && n in nodes && pc.Inc? && pc.addr == nodes[n].addr
    ensures TreeInv(n, nodes, Branch(Leaf, n, Leaf), inserted + {nodes[n].addr}, pcs[t := pc])
  {
    var grown := Branch(Leaf, n, Leaf);
    var k := nodes[n].addr;
    assert shape == Leaf;
    assert Ptrs(grown) == {n};
    assert HasKey(nodes, grown, k) by { assert n in Ptrs(grown); }
    assert inserted == {} by { assert forall j :: !HasKey(nodes, shape, j); }
    assert Rep(nodes, n, grown, -1, WORD) by {
      assert TreePc(NIL, nodes, shape, pcs[t]);
      assert Rep(nodes, NIL, shape, -1, k) && Rep(nodes, NIL, shape, k, WORD);
      assert Rep(nodes, n, Branch(shape, n, shape), -1, WORD);
    }
    forall j ensures j in inserted + {k} <==> HasKey(nodes, grown, j) {
      if HasKey(nodes, grown, j) {
        var p :| p in Ptrs(grown) && p in nodes && nodes[p].addr == j;
        assert p == n;
      }
    }
    forall u | u in pcs && u != t ensures TreePc(n, nodes, grown, pcs[u]) {
      assert TreePc(NIL, nodes, shape, pcs[u]);
      assert PrivateNode(pcs[u]) != PrivateNode(pcs[t]);
    }
  }

  // ---- The records change and ownership stands still ----------------------------------------------

  /** Threads still find what they have in hand after `a` becomes `b` and `p` becomes `q`. */
  ghost predicate InHandKept(a: Nodes, b: Nodes, p: Slots, q: Slots, pc: Pc) {
    && (PrivateNode(pc) != NIL ==>
          && NodeAt(b, PrivateNode(pc)).addr == NodeAt(a, PrivateNode(pc)).addr
          && NodeAt(b, PrivateNode(pc)).size == NodeAt(a, PrivateNode(pc)).size
          && NodeAt(b, PrivateNode(pc)).mask == NodeAt(a, PrivateNode(pc)).mask)
    && (pc.NewSlot? ==> NodeAt(b, pc.cur).addr == NodeAt(a, pc.cur).addr)
    && (PrivateSlot(pc) != NIL ==>
          && SlotAt(q, PrivateSlot(pc)).addr == SlotAt(p, PrivateSlot(pc)).addr
          && SlotAt(q, PrivateSlot(pc)).size == SlotAt(p, PrivateSlot(pc)).size)
  }

  ghost predicate AllKept(a: Nodes, b: Nodes, p: Slots, q: Slots, pcs: map<nat, Pc>) {
    forall t {:trigger InHandKept(a, b, p, q, pcs[t])} :: t in pcs ==> InHandKept(a, b, p, q, pcs[t])
  }

  lemma {:induction false} BlockPcFrame(a: Nodes, b: Nodes, p: Slots, q: Slots, ext: map<nat, nat>,
      st: map<nat, Status>, t: nat, pc: Pc)
    requires BlockPc(a, p, ext, st, t, pc)
    requires InHandKept(a, b, p, q, pc)
    requires pc.InsRoot? || pc.InsRootCas? || pc.InsAt? || pc.InsCas? || pc.InsMerge? ==> pc.ins.node != NIL
    requires pc.PushHead? || pc.PushLink? || pc.PushCas? ==> pc.slot != NIL
    ensures BlockPc(b, q, ext, st, t, pc)
    ensures Owned(b, q, pc) == Owned(a, p, pc)
  {
  }

  /** Changing records that no thread has in hand leaves every owner in place. */
  lemma {:induction false} OwnersFrame(root: Ptr, a: Nodes, b: Nodes, shape: Shape, inserted: set<nat>, head: Ptr,
      p: Slots, q: Slots, chain: seq<Ptr>, ext: map<nat, nat>, st: map<nat, Status>, pcs: map<nat, Pc>)
    requires TreeInv(root, a, shape, inserted, pcs)
    requires ListInv(head, p, chain, pcs)
    requires OwnersInv(a, p, ext, st, pcs)
    requires AllKept(a, b, p, q, pcs)
    ensures OwnersInv(b, q, ext, st, pcs)
  {
    forall t | t in pcs
      ensures BlockPc(b, q, ext, st, t, pcs[t]) && Owned(b, q, pcs[t]) == Owned(a, p, pcs[t])
    {
      assert TreePc(root, a, shape, pcs[t]);
      assert ListPc(p, chain, pcs[t]);
      assert BlockPc(a, p, ext, st, t, pcs[t]);
      assert InHandKept(a, b, p, q, pcs[t]);
      BlockPcFrame(a, b, p, q, ext, st, t, pcs[t]);
    }
    forall x | x in st ensures BusyOk(b, q, st, pcs, x) { assert BusyOk(a, p, st, pcs, x); }
  }

  /** A linked record may change its mask or its links: nobody has it in hand. */
  lemma {:induction false} LinkedNotInHand(root: Ptr, a: Nodes, b: Nodes, shape: Shape, inserted: set<nat>,
      slots: Slots, pcs: map<nat, Pc>, p: Ptr)
    requires TreeInv(root, a, shape, inserted, pcs)
    requires p in Ptrs(shape) && p in a && p in b && b == a[p := b[p]] && b[p].addr == a[p].addr
    ensures AllKept(a, b, slots, slots, pcs)
  {
    forall t | t in pcs ensures InHandKept(a, b, slots, slots, pcs[t]) {
      assert TreePc(root, a, shape, pcs[t]);
    }
  }

  // ---- An extent changes hands ----------------------------------------------------------------------

  /** Extent `a`, which no other thread has in hand, goes to `o` as thread `t` moves on. */
  lemma {:induction false} OwnersChange(nodes: Nodes, slots: Slots, ext: map<nat, nat>, st: map<nat, Status>,
      pcs: map<nat, Pc>, t: nat, a: nat, o: Status, pc: Pc)
    requires OwnersInv(nodes, slots, ext, st, pcs) && t in pcs && a in st && 0 !in st
    requires st[a].Busy? ==> st[a].thread == t
    requires Owned(nodes, slots, pcs[t]) == if st[a].Busy? then a else 0
    requires o.Busy? ==> o.thread == t
    requires Owned(nodes, slots, pc) == if o.Busy? then a else 0
    requires BlockPc(nodes, slots, ext, st[a := o], t, pc)
    ensures OwnersInv(nodes, slots, ext, st[a := o], pcs[t := pc])
  {
    forall u | u in pcs && u != t ensures BlockPc(nodes, slots, ext, st[a := o], u, pcs[u]) {
      assert BlockPc(nodes, slots, ext, st, u, pcs[u]);
    }
    forall b | b in st ensures BusyOk(nodes, slots, st[a := o], pcs[t := pc], b) {
      assert BusyOk(nodes, slots, st, pcs, b);
    }
  }

  /** The masks still fit the owners when extent `a` goes to `o` and thread `t` moves on. */
  lemma {:induction false} NodesChange(nodes: Nodes, shape: Shape, ext: map<nat, nat>, st: map<nat, Status>,
                    live: map<nat, Grant>, after: map<nat, Grant>, pcs: map<nat, Pc>, t: nat, a: nat, o: Status, pc: Pc)
    requires NodeBlocks(nodes, shape, ext, st, live, pcs) && t in pcs && a in st
    requires forall b :: b in st && b != a ==> st[b] != Busy(t)
    requires forall b :: b in st && b != a && st[b].Live? && st[b].grant in live ==>
               st[b].grant in after && after[st[b].grant].held <= live[st[b].grant].held
    requires forall p :: Linked(nodes, shape, p, a) ==> MaskOk(nodes[p].mask, o, after, pcs[t := pc])
    ensures NodeBlocks(nodes, shape, ext, st[a := o], after, pcs[t := pc])
  {
    forall p | p in Ptrs(shape) && p in nodes
      ensures NodeOk(nodes[p], ext, st[a := o], after, pcs[t := pc])
    {
      assert NodeOk(nodes[p], ext, st, live, pcs);
      if nodes[p].addr == a { assert Linked(nodes, shape, p, a); }
    }
  }

  lemma {:induction false} ChainBlocksChange(slots: Slots, chain: seq<Ptr>, ext: map<nat, nat>, st: map<nat, Status>,
      a: nat, o: Status)
    requires ChainBlocks(slots, chain, ext, st) && a in st && st[a] != Free
    ensures ChainBlocks(slots, chain, ext, st[a := o])
  {
    forall p | p in chain ensures SlotFree(slots, ext, st[a := o], p) { assert SlotFree(slots, ext, st, p); }
  }

  lemma {:induction false} GrantsChange(nextGrant: nat, inserted: set<nat>, ext: map<nat, nat>, st: map<nat, Status>,
                     live: map<nat, Grant>, a: nat, o: Status)
    requires GrantsInv(nextGrant, inserted, ext, st, live) && a in st && !st[a].Live? && !o.Live?
    ensures GrantsInv(nextGrant, inserted, ext, st[a := o], live)
  {
    forall g | g in live ensures GrantOk(nextGrant, inserted, ext, st[a := o], g, live[g]) {
      assert GrantOk(nextGrant, inserted, ext, st, g, live[g]);
    }
    forall b | b in st ensures LiveOk(st[a := o], live, b) { assert LiveOk(st, live, b); }
  }
}
