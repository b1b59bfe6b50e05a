/** Every owner bit of a block belongs to somebody: a caller holds it, or a call in progress was handed it. */
module MachineMasks {
  import opened Words
  import opened Layout
  import opened SearchTree
  import opened FreeStack
  import opened Machine
  import opened MachineInvariant
  import opened MachineSteps
  import opened MachineMoves
  import opened MachineCalls
  import opened MachineOwners
  import opened MachineSafety

  /** A caller holds bit `b` of grant `g`, or a call in progress has it and it is still set. */
  ghost predicate HasSource(live: map<nat, Grant>, pcs: map<nat, Pc>, g: nat, b: nat) {
    && g in live
    && (b in live[g].held || exists t :: CallHas(pcs, t, g, b))
  }

  ghost predicate CallHas(pcs: map<nat, Pc>, t: nat, g: nat, b: nat) {
    t in pcs && CommittedTo(pcs[t], g) && b in Engaged(pcs[t].search)
  }

  /** The bits of every granted block have a source. */
  ghost predicate Sourced(nodes: Nodes, shape: Shape, live: map<nat, Grant>, pcs: map<nat, Pc>) {
    forall g, p, b :: g in live && Linked(nodes, shape, p, live[g].addr) && b in nodes[p].mask ==>
        HasSource(live, pcs, g, b)
  }

  /** The links spell out one shape. */
  lemma {:induction false} ShapeUnique(nodes: Nodes, p: Ptr, a: Shape, b: Shape, lo: int, hi: int)
    requires Rep(nodes, p, a, lo, hi) && Rep(nodes, p, b, lo, hi)
    ensures a == b
    decreases a
  {
    if a.Branch? && b.Branch? {
      ShapeUnique(nodes, nodes[p].left, a.left, b.left, lo, nodes[p].addr);
      ShapeUnique(nodes, nodes[p].right, a.right, b.right, nodes[p].addr, hi);
    }
  }

  /** No mask grows, no grant moves, and no bit loses its source. */
  ghost predicate SourcesKept(live: map<nat, Grant>, pcs: map<nat, Pc>, live1: map<nat, Grant>, pcs1: map<nat, Pc>) {
    && (forall g :: g in live1 ==> g in live && live1[g].addr == live[g].addr)
    && (forall g, b :: g in live1 && HasSource(live, pcs, g, b) ==> HasSource(live1, pcs1, g, b))
  }

  lemma {:induction false} SourcedKeep(a: Nodes, b: Nodes, shape: Shape, live: map<nat, Grant>, pcs: map<nat, Pc>,
                                       live1: map<nat, Grant>, pcs1: map<nat, Pc>)
    requires Sourced(a, shape, live, pcs) && SourcesKept(live, pcs, live1, pcs1)
    requires forall p :: p in Ptrs(shape) && p in b ==> p in a && b[p].addr == a[p].addr && b[p].mask <= a[p].mask
    ensures Sourced(b, shape, live1, pcs1)
  {
    forall g, p, x | g in live1 && Linked(b, shape, p, live1[g].addr) && x in b[p].mask
      ensures HasSource(live1, pcs1, g, x)
    {
      assert Linked(a, shape, p, live[g].addr);
      assert HasSource(live, pcs, g, x);
    }
  }

  /** A thread moves on with the call it was committed to, or with none. */
  lemma {:induction false} SourcesMove(live: map<nat, Grant>, pcs: map<nat, Pc>, t: nat, to: Pc)
    requires t in pcs && (Committed(pcs[t]) ==> Committed(to) && to.search == pcs[t].search)
    ensures SourcesKept(live, pcs, live, pcs[t := to])
  {
    forall g, b | g in live && HasSource(live, pcs, g, b) ensures HasSource(live, pcs[t := to], g, b) {
      if b !in live[g].held {
        var u :| CallHas(pcs, u, g, b);
        assert CallHas(pcs[t := to], u, g, b);
      }
    }
  }

  /** A call that is no longer committed has given its bits back, or they are gone from the mask. */
  lemma {:induction false} SourcesGive(live: map<nat, Grant>, pcs: map<nat, Pc>, t: nat, to: Pc, g: nat, held: Mask)
    requires t in pcs && CommittedTo(pcs[t], g) && !Committed(to) && g in live && live[g].held <= held
    ensures forall h, b ::
              h in live && HasSource(live, pcs, h, b) && !(h == g && b in Engaged(pcs[t].search) && b !in held)
              ==> HasSource(live[g := live[g].(held := held)], pcs[t := to], h, b)
  {
    var live1, pcs1 := live[g := live[g].(held := held)], pcs[t := to];
    forall h, b | h in live && HasSource(live, pcs, h, b) && !(h == g && b in Engaged(pcs[t].search) && b !in held)
      ensures HasSource(live1, pcs1, h, b)
    {
      if b !in live[h].held {
        var u :| CallHas(pcs, u, h, b);
        if u != t { assert CallHas(pcs1, u, h, b); }
      }
    }
  }

  // ---- Each move ---------------------------------------------------------------------------------------

  /** No grant is for a block that a thread has in hand. */
  lemma {:induction false} NoGrantInHand(c: Config, s: State, v: View, t: nat, a: nat)
    requires v in Views(c, s) && Has(v.ext, v.st, t, a)
    ensures forall g :: g in s.live ==> s.live[g].addr != a
  {
    forall g | g in s.live ensures s.live[g].addr != a {
      assert GrantOk(s.nextGrant, s.inserted, v.ext, v.st, g, s.live[g]);
    }
  }

  /** Two grants are never for one block. */
  lemma {:induction false} OneGrant(c: Config, s: State, v: View, g: nat, h: nat)
    requires v in Views(c, s) && g in s.live && h in s.live && s.live[g].addr == s.live[h].addr
    ensures g == h
  {
    assert GrantOk(s.nextGrant, s.inserted, v.ext, v.st, g, s.live[g]);
    assert GrantOk(s.nextGrant, s.inserted, v.ext, v.st, h, s.live[h]);
  }

  /** The tree gets a record, or a record gets owners, at an address that nobody is granted. */
  lemma {:induction false} SourcedElsewhere(a: Nodes, b: Nodes, shape: Shape, grown: Shape, live: map<nat, Grant>,
                                            pcs: map<nat, Pc>, t: nat, to: Pc, k: nat)
    requires Sourced(a, shape, live, pcs) && t in pcs && !Committed(pcs[t])
    requires forall g :: g in live ==> live[g].addr != k
    requires forall p :: p in Ptrs(grown) && p in b && b[p].addr != k ==>
               p in Ptrs(shape) && p in a && a[p].addr == b[p].addr && a[p].mask == b[p].mask
    ensures Sourced(b, grown, live, pcs[t := to])
  {
    SourcesMove(live, pcs, t, to);
    forall g, p, x | g in live && Linked(b, grown, p, live[g].addr) && x in b[p].mask
      ensures HasSource(live, pcs[t := to], g, x)
    {
      assert Linked(a, shape, p, live[g].addr);
      assert HasSource(live, pcs, g, x);
    }
  }

  lemma {:induction false} MasksInc(c: Config, s: State, v: View, t: nat, pc: Pc)
    requires v in Views(c, s) && Sourced(s.nodes, v.shape, s.live, s.pcs) && t in s.pcs && s.pcs[t] == pc && pc.Inc?
    ensures var s1 := DoInc(s, t, pc); Sourced(s1.nodes, v.shape, s1.live, s1.pcs)
  {
    var s1, n := DoInc(s, t, pc), s.nextGrant;
    assert n in s.live ==> GrantOk(n, s.inserted, v.ext, v.st, n, s.live[n]);
    assert BlockPc(s.nodes, s.slots, v.ext, v.st, t, pc);
    SourcesMove(s.live, s.pcs, t, Idle);
    forall g, p, x | g in s1.live && Linked(s.nodes, v.shape, p, s1.live[g].addr) && x in s.nodes[p].mask
      ensures HasSource(s1.live, s1.pcs, g, x)
    {
      if g == n {
        assert NodeOk(s.nodes[p], v.ext, v.st, s.live, s.pcs);
      } else {
        assert HasSource(s.live, s.pcs, g, x);
        assert HasSource(s.live, s1.pcs, g, x);
      }
    }
  }

  /** The tree is a search tree and its masks have sources; the shape is the one the links spell out. */
  ghost predicate Masked(s: State) {
    exists shape :: shape in Sources(s)
  }

  ghost function Sources(s: State): iset<Shape> {
    iset shape | Rep(s.nodes, s.root, shape, -1, WORD) && Sourced(s.nodes, shape, s.live, s.pcs)
  }

  lemma {:induction false} MaskedHere(c: Config, s: State, v: View)
    requires v in Views(c, s) && Masked(s)
    ensures Sourced(s.nodes, v.shape, s.live, s.pcs)
  {
    var shape :| shape in Sources(s);
    ShapeUnique(s.nodes, s.root, shape, v.shape, -1, WORD);
  }

  /** The tree stands still and the thread keeps its call, or has none. */
  lemma {:induction false} MasksStand(s: State, shape: Shape, s1: State, t: nat, to: Pc)
    requires shape in Sources(s) && t in s.pcs && s1.pcs == s.pcs[t := to]
    requires s1.nodes == s.nodes && s1.root == s.root && s1.live == s.live
    requires Committed(s.pcs[t]) ==> Committed(to) && to.search == s.pcs[t].search
    ensures Masked(s1)
  {
    SourcesMove(s.live, s.pcs, t, to);
    SourcedKeep(s.nodes, s.nodes, shape, s.live, s.pcs, s1.live, s1.pcs);
    assert shape in Sources(s1);
  }

  lemma {:induction false} MasksPopPush(c: Config, s: State, shape: Shape, t: nat, pc: Pc)
    requires shape in Sources(s) && t in s.pcs && s.pcs[t] == pc
    requires pc.PopHead? || pc.PopNext? || pc.PopCas? || pc.PushHead? || pc.PushLink? || pc.PushCas?
    ensures Masked(Exec(c, s, t))
  {
    if pc.PopHead? || pc.PopNext? || pc.PopCas? { ExecPop(c, s, t, pc); } else { ExecPush(c, s, t, pc); }
    MasksStand(s, shape, Exec(c, s, t), t, Exec(c, s, t).pcs[t]);
  }

  lemma {:induction false} MasksNewNode(s: State, c: Config, v: View, t: nat, n: Node, to: Pc)
    requires v in Views(c, s) && v.shape in Sources(s) && t in s.pcs && !Committed(s.pcs[t])
    requires s.nodeBump !in s.nodes && s.nodeBump != NIL
    ensures Masked(Goto(s.(nodes := s.nodes[s.nodeBump := n], nodeBump := s.nodeBump + NODE_BYTES), t, to))
  {
    var b := s.nodes[s.nodeBump := n];
    NodeUnknown(s.root, s.nodes, v.shape, s.inserted, s.pcs, s.nodeBump);
    TreeAddNode(s.root, s.nodes, v.shape, s.inserted, s.pcs, s.nodeBump, n);
    SourcesMove(s.live, s.pcs, t, to);
    SourcedKeep(s.nodes, b, v.shape, s.live, s.pcs, s.live, s.pcs[t := to]);
    assert v.shape in Sources(Goto(s.(nodes := b, nodeBump := s.nodeBump + NODE_BYTES), t, to));
  }

  lemma {:induction false} MasksAlloc(c: Config, s: State, v: View, t: nat, pc: Pc)
    requires v in Views(c, s) && v.shape in Sources(s) && t in s.pcs && s.pcs[t] == pc && NoWrap(s, t)
    requires pc.Bump? || pc.NewNode? || pc.NewSlot? || pc.Inc?
    ensures Masked(Exec(c, s, t))
  {
    ExecAlloc(c, s, t, pc);
    if pc.Inc? {
      MasksInc(c, s, v, t, pc);
      assert v.shape in Sources(DoInc(s, t, pc));
    } else if pc.NewNode? && s.nodeBump + NODE_BYTES <= c.nodeEnd {
      var n := Node(pc.addr, pc.size, NormalizeMask(pc.mask), NIL, NIL);
      MetaNewNode(c, s.nodes, s.slots, s.nodeBump, n);
      MasksNewNode(s, c, v, t, n, InsRoot(Insertion(pc.want, s.nodeBump, [])));
    } else {
      MasksStand(s, v.shape, Exec(c, s, t), t, Exec(c, s, t).pcs[t]);
    }
  }

  // ---- Insertions ----------------------------------------------------------------------------------------

  lemma {:induction false} MasksRootWin(c: Config, s: State, v: View, t: nat, pc: Pc)
    requires v in Views(c, s) && v.shape in Sources(s) && t in s.pcs && s.pcs[t] == pc && pc.InsRootCas?
             && s.root == NIL
    ensures Masked(Inserted(s.(root := pc.ins.node), t, pc.ins))
  {
    assert TreePc(s.root, s.nodes, v.shape, pc) && BlockPc(s.nodes, s.slots, v.ext, v.st, t, pc);
    var n, grown := s.nodes[pc.ins.node], Branch(Leaf, pc.ins.node, Leaf);
    var to := Inc(pc.ins.want, n.addr, n.mask);
    NoGrantInHand(c, s, v, t, n.addr);
    TreePlant(s.nodes, v.shape, s.inserted, s.pcs, t, pc.ins.node, to);
    assert Ptrs(grown) == {pc.ins.node};
    SourcedElsewhere(s.nodes, s.nodes, v.shape, grown, s.live, s.pcs, t, to, n.addr);
    assert grown in Sources(Inserted(s.(root := pc.ins.node), t, pc.ins));
  }

  lemma {:induction false} GrowElsewhere(root: Ptr, nodes: Nodes, shape: Shape, live: map<nat, Grant>,
                                         pcs: map<nat, Pc>, t: nat, to: Pc, k: nat, c: Ptr, n: Ptr)
    requires CanLink(root, nodes, shape, k, c, n) && Sourced(nodes, shape, live, pcs)
    requires t in pcs && !Committed(pcs[t]) && forall g :: g in live ==> live[g].addr != k
    ensures Sourced(SetChild(nodes, c, k, n), Grow(nodes, shape, k, n), live, pcs[t := to])
  {
    OnlyAtGrow(root, nodes, shape, k, c, n);
    SourcedElsewhere(nodes, SetChild(nodes, c, k, n), shape, Grow(nodes, shape, k, n), live, pcs, t, to, k);
  }

  lemma {:induction false} MasksWin(c: Config, s: State, v: View, t: nat, pc: Pc)
    requires v in Views(c, s) && v.shape in Sources(s) && t in s.pcs && s.pcs[t] == pc && pc.InsCas?
    requires Child(NodeAt(s.nodes, pc.cur), NodeAt(s.nodes, pc.ins.node).addr) == NIL
    ensures var x := NodeAt(s.nodes, pc.cur);
            Masked(Inserted(s.(nodes :=
                s.nodes[pc.cur := WithChild(x, NodeAt(s.nodes, pc.ins.node).addr, pc.ins.node)]),
                            t, pc.ins))
  {
    assert TreePc(s.root, s.nodes, v.shape, pc) && BlockPc(s.nodes, s.slots, v.ext, v.st, t, pc);
    CanLinkHere(s.root, s.nodes, v.shape, pc);
    var n := s.nodes[pc.ins.node];
    var b, grown := SetChild(s.nodes, pc.cur, n.addr, pc.ins.node), Grow(s.nodes, v.shape, n.addr, pc.ins.node);
    var to := Inc(pc.ins.want, n.addr, n.mask);
    NoGrantInHand(c, s, v, t, n.addr);
    TreeGrow(s.root, s.nodes, v.shape, s.inserted, s.pcs, t, n.addr, pc.cur, pc.ins.node, to);
    GrowElsewhere(s.root, s.nodes, v.shape, s.live, s.pcs, t, to, n.addr, pc.cur, pc.ins.node);
    assert grown in Sources(Inserted(s.(nodes := b), t, pc.ins));
  }

  /** A linked record gets another size, or owners at an address that nobody is granted. */
  lemma {:induction false} MasksStore(c: Config, s: State, v: View, t: nat, p: Ptr, size: nat, mask: Mask, to: Pc)
    requires v in Views(c, s) && v.shape in Sources(s) && t in s.pcs && !Committed(s.pcs[t]) && p in s.nodes
    requires mask == s.nodes[p].mask || forall g :: g in s.live ==> s.live[g].addr != s.nodes[p].addr
    ensures Rep(s.nodes[p := s.nodes[p].(size := size, mask := mask)], s.root, v.shape, -1, WORD)
    ensures Sourced(s.nodes[p := s.nodes[p].(size := size, mask := mask)], v.shape, s.live, s.pcs[t := to])
  {
    var b := s.nodes[p := s.nodes[p].(size := size, mask := mask)];
    RepBounds(s.nodes, s.root, v.shape, -1, WORD);
    RepFrame(s.nodes, b, s.root, v.shape, -1, WORD);
    if mask == s.nodes[p].mask {
      SourcesMove(s.live, s.pcs, t, to);
      SourcedKeep(s.nodes, b, v.shape, s.live, s.pcs, s.live, s.pcs[t := to]);
    } else {
      SourcedElsewhere(s.nodes, b, v.shape, v.shape, s.live, s.pcs, t, to, s.nodes[p].addr);
    }
  }

  lemma {:induction false} MasksMerge(c: Config, s: State, v: View, t: nat, pc: Pc)
    requires v in Views(c, s) && v.shape in Sources(s) && t in s.pcs && s.pcs[t] == pc && pc.InsMerge?
    ensures Masked(DoInsMerge(s, t, pc))
  {
    assert TreePc(s.root, s.nodes, v.shape, pc) && BlockPc(s.nodes, s.slots, v.ext, v.st, t, pc);
    var n, x := s.nodes[pc.ins.node], s.nodes[pc.cur];
    NoGrantInHand(c, s, v, t, n.addr);
    MasksStore(c, s, v, t, pc.cur, x.size, x.mask + n.mask, Inc(pc.ins.want, n.addr, n.mask));
    assert WithMask(s.nodes, pc.cur, x.mask + n.mask) == s.nodes[pc.cur := x.(size := x.size, mask := x.mask + n.mask)];
    assert v.shape in Sources(DoInsMerge(s, t, pc));
  }

  lemma {:induction false} MasksAt(c: Config, s: State, v: View, t: nat, pc: Pc)
    requires v in Views(c, s) && v.shape in Sources(s) && t in s.pcs && s.pcs[t] == pc && pc.InsAt?
    requires NodeAt(s.nodes, pc.ins.node).addr == NodeAt(s.nodes, pc.cur).addr
    ensures Masked(Goto(s.(nodes :=
            s.nodes[pc.cur := NodeAt(s.nodes, pc.cur).(size := NodeAt(s.nodes, pc.ins.node).size)]),
                        t, InsMerge(pc.ins, pc.cur)))
  {
    assert TreePc(s.root, s.nodes, v.shape, pc);
    OnPathIn(s.nodes, v.shape, s.nodes[pc.ins.node].addr, pc.cur);
    var x, size := s.nodes[pc.cur], s.nodes[pc.ins.node].size;
    MasksStore(c, s, v, t, pc.cur, size, x.mask, InsMerge(pc.ins, pc.cur));
    assert x.(size := size, mask := x.mask) == x.(size := size);
    assert v.shape in Sources(Goto(s.(nodes := s.nodes[pc.cur := x.(size := size)]), t, InsMerge(pc.ins, pc.cur)));
  }

  lemma {:induction false} MasksInsert(c: Config, s: State, v: View, t: nat, pc: Pc)
    requires v in Views(c, s) && v.shape in Sources(s) && t in s.pcs && s.pcs[t] == pc
    requires pc.InsRoot? || pc.InsRootCas? || pc.InsAt? || pc.InsCas? || pc.InsMerge?
    ensures Masked(Exec(c, s, t))
  {
    ExecInsert(c, s, t, pc);
    if pc.InsRootCas? && s.root == NIL {
      MasksRootWin(c, s, v, t, pc);
    } else if pc.InsCas? && Child(NodeAt(s.nodes, pc.cur), NodeAt(s.nodes, pc.ins.node).addr) == NIL {
      MasksWin(c, s, v, t, pc);
    } else if pc.InsMerge? {
      MasksMerge(c, s, v, t, pc);
    } else if pc.InsAt? && NodeAt(s.nodes, pc.ins.node).addr == NodeAt(s.nodes, pc.cur).addr {
      MasksAt(c, s, v, t, pc);
    } else {
      MasksStand(s, v.shape, Exec(c, s, t), t, Exec(c, s, t).pcs[t]);
    }
  }

  // ---- Searches, shares and releases -----------------------------------------------------------------------

  /** A search for a held block goes on or hits. */
  lemma {:induction false} FoundOrOn(c: Config, s: State, v: View, t: nat, pc: Pc)
    requires v in Views(c, s) && t in s.pcs && s.pcs[t] == pc && (pc.FindRoot? || pc.FindAt?) && !pc.search.ForLookup?
    ensures pc.FindRoot? ==> s.root != NIL
    ensures pc.FindAt? && NodeAt(s.nodes, pc.cur).addr != pc.search.addr ==>
              Child(NodeAt(s.nodes, pc.cur), pc.search.addr) != NIL
  {
    assert TreePc(s.root, s.nodes, v.shape, pc);
    if pc.FindAt? && NodeAt(s.nodes, pc.cur).addr != pc.search.addr { NeverMiss(s.root, s.nodes, v.shape, pc); }
    if pc.FindRoot? { assert v.shape != Leaf; }
  }

  lemma {:induction false} MasksFind(c: Config, s: State, v: View, t: nat, pc: Pc)
    requires v in Views(c, s) && v.shape in Sources(s) && t in s.pcs && s.pcs[t] == pc
    requires pc.FindRoot? || pc.FindAt? || pc.Looked?
    ensures Masked(Exec(c, s, t))
  {
    ExecFind(c, s, t, pc);
    if !pc.Looked? && !pc.search.ForLookup? { FoundOrOn(c, s, v, t, pc); }
    MasksStand(s, v.shape, Exec(c, s, t), t, Exec(c, s, t).pcs[t]);
  }

  /** The mask of the block of a call changes to `mask` and its caller gets `held`: every bit keeps its source. */
  lemma {:induction false} MasksEnd(c: Config, s: State, v: View, t: nat, pc: Pc, mask: Mask, held: Mask)
    requires v in Views(c, s) && v.shape in Sources(s) && t in s.pcs && s.pcs[t] == pc && (pc.ShareOr? || pc.ClearCas?)
    requires Committed(pc) && pc.search.grant in s.live && s.live[pc.search.grant].addr == pc.search.addr
    requires Linked(s.nodes, v.shape, pc.cur, pc.search.addr)
    requires s.live[pc.search.grant].held <= held
    requires forall b :: b in mask ==> b in held || (b in s.nodes[pc.cur].mask && b !in Engaged(pc.search))
    ensures Masked(Goto(s.(nodes := WithMask(s.nodes, pc.cur, mask),
                           live := s.live[pc.search.grant := s.live[pc.search.grant].(held := held)]), t, Idle))
  {
    var g := pc.search.grant;
    var b, live1, pcs1 := WithMask(s.nodes, pc.cur, mask), s.live[g := s.live[g].(held := held)], s.pcs[t := Idle];
    SourcesGive(s.live, s.pcs, t, Idle, g, held);
    RepBounds(s.nodes, s.root, v.shape, -1, WORD);
    RepFrame(s.nodes, b, s.root, v.shape, -1, WORD);
    forall h, p, x | h in live1 && Linked(b, v.shape, p, live1[h].addr) && x in b[p].mask
      ensures HasSource(live1, pcs1, h, x)
    {
      assert Linked(s.nodes, v.shape, p, s.live[h].addr);
      if p == pc.cur {
        OneGrant(c, s, v, g, h);
        if x !in held { assert HasSource(s.live, s.pcs, h, x); }
      } else {
        if h == g { UniqueKey(s.nodes, s.root, v.shape, -1, WORD, p, pc.cur); }
        assert HasSource(s.live, s.pcs, h, x);
      }
    }
    assert v.shape in Sources(Goto(s.(nodes := b, live := live1), t, Idle));
  }

  /** The grant ends with its last owner; the other grants are for other blocks. */
  lemma {:induction false} MasksLast(c: Config, s: State, v: View, t: nat, pc: Pc)
    requires v in Views(c, s) && v.shape in Sources(s) && t in s.pcs && s.pcs[t] == pc && pc.ClearCas?
    requires Committed(pc) && pc.cur in s.nodes
    ensures Masked(Goto(s.(nodes := WithMask(s.nodes, pc.cur, {}), live := s.live - {pc.search.grant}), t,
                        NewSlot(pc.cur)))
  {
    var g := pc.search.grant;
    var b, live1, to := WithMask(s.nodes, pc.cur, {}), s.live - {g}, NewSlot(pc.cur);
    RepBounds(s.nodes, s.root, v.shape, -1, WORD);
    RepFrame(s.nodes, b, s.root, v.shape, -1, WORD);
    forall h, x | h in live1 && HasSource(s.live, s.pcs, h, x) ensures HasSource(live1, s.pcs[t := to], h, x) {
      if x !in s.live[h].held {
        var u :| CallHas(s.pcs, u, h, x);
        assert CallHas(s.pcs[t := to], u, h, x);
      }
    }
    SourcedKeep(s.nodes, b, v.shape, s.live, s.pcs, live1, s.pcs[t := to]);
    assert v.shape in Sources(Goto(s.(nodes := b, live := live1), t, to));
  }

  lemma {:induction false} MasksShare(c: Config, s: State, v: View, t: nat, pc: Pc)
    requires v in Views(c, s) && v.shape in Sources(s) && t in s.pcs && s.pcs[t] == pc && pc.ShareOr?
    ensures Masked(DoShareOr(s, t, pc))
  {
    assert TreePc(s.root, s.nodes, v.shape, pc);
    CallKnows(s.root, s.nodes, v.shape, s.nextGrant, s.inserted, v.ext, v.st, s.live, s.pcs, t, pc);
    var q := pc.search;
    MasksEnd(c, s, v, t, pc, s.nodes[pc.cur].mask + q.bits, s.live[q.grant].held + ({q.hold} + q.bits));
  }

  lemma {:induction false} MasksClear(c: Config, s: State, v: View, t: nat, pc: Pc)
    requires v in Views(c, s) && v.shape in Sources(s) && t in s.pcs && s.pcs[t] == pc && pc.ClearCas?
    ensures Masked(Exec(c, s, t))
  {
    assert TreePc(s.root, s.nodes, v.shape, pc);
    CallKnows(s.root, s.nodes, v.shape, s.nextGrant, s.inserted, v.ext, v.st, s.live, s.pcs, t, pc);
    ExecOwner(c, s, t, pc);
    var g, left := pc.search.grant, pc.seen - pc.search.bits;
    if NodeAt(s.nodes, pc.cur).mask != pc.seen {
      MasksStand(s, v.shape, Exec(c, s, t), t, ClearLoad(pc.search, pc.cur));
    } else if left != {} {
      MasksEnd(c, s, v, t, pc, left, s.live[g].held);
      assert s.live[g := s.live[g].(held := s.live[g].held)] == s.live;
    } else {
      MasksLast(c, s, v, t, pc);
    }
  }

  lemma {:induction false} MasksOwner(c: Config, s: State, v: View, t: nat, pc: Pc)
    requires v in Views(c, s) && v.shape in Sources(s) && t in s.pcs && s.pcs[t] == pc
    requires pc.ShareOr? || pc.ClearLoad? || pc.ClearCas? || pc.Dec?
    ensures Masked(Exec(c, s, t))
  {
    if pc.ClearCas? {
      MasksClear(c, s, v, t, pc);
    } else {
      ExecOwner(c, s, t, pc);
      if pc.ShareOr? {
        MasksShare(c, s, v, t, pc);
      } else {
        MasksStand(s, v.shape, Exec(c, s, t), t, Exec(c, s, t).pcs[t]);
      }
    }
  }

  /** A call begins: the bits that the caller hands over stay in the mask, and the call has them now. */
  lemma {:induction false} MasksBegin(c: Config, s: State, v: View, t: nat, q: Search)
    requires v in Views(c, s) && v.shape in Sources(s) && t in s.pcs && s.pcs[t].Idle? && !q.ForLookup?
             && q.grant in s.live
    ensures Masked(Goto(TakeHeld(s, q.grant, Engaged(q)), t, FindRoot(q)))
  {
    var s1 := Goto(TakeHeld(s, q.grant, Engaged(q)), t, FindRoot(q));
    forall h, x | h in s.live && HasSource(s.live, s.pcs, h, x) ensures HasSource(s1.live, s1.pcs, h, x) {
      if x in s.live[h].held {
        if x !in s1.live[h].held { assert CallHas(s1.pcs, t, h, x); }
      } else {
        var u :| CallHas(s.pcs, u, h, x);
        assert CallHas(s1.pcs, u, h, x);
      }
    }
    SourcedKeep(s.nodes, s.nodes, v.shape, s.live, s.pcs, s1.live, s1.pcs);
    assert v.shape in Sources(s1);
  }

  lemma {:induction false} MasksStart(c: Config, s: State, v: View, t: nat, call: Call)
    requires v in Views(c, s) && v.shape in Sources(s) && t in s.pcs && s.pcs[t].Idle? && Allowed(s, call)
    ensures Masked(Begin(s, t, call))
  {
    match call
    case CallAlloc(_, _) => MasksStand(s, v.shape, Begin(s, t, call), t, Begin(s, t, call).pcs[t]);
    case CallLookup(_) => MasksStand(s, v.shape, Begin(s, t, call), t, Begin(s, t, call).pcs[t]);
    case CallShare(g, hold, bits) => MasksBegin(c, s, v, t, ForShare(g, s.live[g].addr, hold, NormalizeMask(bits)));
    case CallFree(g, bits) => MasksBegin(c, s, v, t, ForFree(g, s.live[g].addr, bits));
  }

  lemma {:induction false} MasksStep(c: Config, s: State, m: Move)
    requires Good(c, s) && Masked(s) && Legal(s, m)
    ensures Masked(Do(c, s, m))
  {
    var v :| v in Views(c, s);
    MaskedHere(c, s, v);
    assert v.shape in Sources(s);
    match m {
      case Start(t, call) => MasksStart(c, s, v, t, call);
      case Run(t) => MasksRun(c, s, v, t, s.pcs[t]);
    }
  }

  lemma {:induction false} MasksRun(c: Config, s: State, v: View, t: nat, pc: Pc)
    requires v in Views(c, s) && v.shape in Sources(s) && t in s.pcs && s.pcs[t] == pc && !pc.Idle? && NoWrap(s, t)
    ensures Masked(Exec(c, s, t))
  {
    if pc.PopHead? || pc.PopNext? || pc.PopCas? || pc.PushHead? || pc.PushLink? || pc.PushCas? {
      MasksPopPush(c, s, v.shape, t, pc);
    } else if pc.Bump? || pc.NewNode? || pc.NewSlot? || pc.Inc? {
      MasksAlloc(c, s, v, t, pc);
    } else if pc.FindRoot? || pc.FindAt? || pc.Looked? {
      MasksFind(c, s, v, t, pc);
    } else if pc.ShareOr? || pc.ClearLoad? || pc.ClearCas? || pc.Dec? {
      MasksOwner(c, s, v, t, pc);
    } else {
      MasksInsert(c, s, v, t, pc);
    }
  }

  lemma {:induction false} RunsMasked(c: Config, s: State, moves: seq<Move>)
    requires Good(c, s) && Masked(s) && LegalRun(c, s, moves) && NoStalePops(c, s, moves)
    ensures Masked(After(c, s, moves))
    decreases |moves|
  {
    if moves != [] {
      MasksStep(c, s, moves[0]);
      StepGood(c, s, moves[0]);
      RunsMasked(c, Do(c, s, moves[0]), moves[1..]);
    }
  }

  /** In every interleaving without stale pops the mask of a block that is handed out is exactly the bits that
      callers hold on it together with those that calls in progress on it were handed and have not cleared. */
  lemma {:induction false} MaskIsExact(c: Config, threads: set<nat>, moves: seq<Move>, g: nat) returns (p: Ptr)
    requires c.WellFormed() && LegalRun(c, Initial(c, threads), moves) && NoStalePops(c, Initial(c, threads), moves)
    requires g in After(c, Initial(c, threads), moves).live
    ensures var s := After(c, Initial(c, threads), moves);
            && (exists shape :: Rep(s.nodes, s.root, shape, -1, WORD) && Linked(s.nodes, shape, p, s.live[g].addr))
            && p in s.nodes
            && forall b :: b in s.nodes[p].mask <==> HasSource(s.live, s.pcs, g, b)
  {
    var o := Initial(c, threads);
    InitialGood(c, threads);
    InitialMasked(c, threads);
    RunsGood(c, o, moves);
    RunsMasked(c, o, moves);
    p := ExactHere(c, After(c, o, moves), g);
  }

  lemma {:induction false} InitialMasked(c: Config, threads: set<nat>)
    ensures Masked(Initial(c, threads))
  {
    assert Leaf in Sources(Initial(c, threads));
  }

  lemma {:induction false} GrantLinked(c: Config, s: State, v: View, g: nat) returns (p: Ptr)
    requires v in Views(c, s) && g in s.live
    ensures Linked(s.nodes, v.shape, p, s.live[g].addr)
  {
    assert GrantOk(s.nextGrant, s.inserted, v.ext, v.st, g, s.live[g]);
    assert HasKey(s.nodes, v.shape, s.live[g].addr);
    p :| p in Ptrs(v.shape) && p in s.nodes && s.nodes[p].addr == s.live[g].addr;
  }

  lemma {:induction false} ExactHere(c: Config, s: State, g: nat) returns (p: Ptr)
    requires Good(c, s) && Masked(s) && g in s.live
    ensures exists shape :: Rep(s.nodes, s.root, shape, -1, WORD) && Linked(s.nodes, shape, p, s.live[g].addr)
    ensures p in s.nodes && forall b :: b in s.nodes[p].mask <==> HasSource(s.live, s.pcs, g, b)
  {
    var v :| v in Views(c, s);
    MaskedHere(c, s, v);
    p := GrantLinked(c, s, v, g);
    forall b ensures b in s.nodes[p].mask <==> HasSource(s.live, s.pcs, g, b) {
      if HasSource(s.live, s.pcs, g, b) { SourceIsSet(c, s, v, g, p, b); }
    }
  }

  lemma {:induction false} SourceIsSet(c: Config, s: State, v: View, g: nat, p: Ptr, b: nat)
    requires v in Views(c, s) && HasSource(s.live, s.pcs, g, b) && Linked(s.nodes, v.shape, p, s.live[g].addr)
    ensures b in s.nodes[p].mask
  {
    assert GrantOk(s.nextGrant, s.inserted, v.ext, v.st, g, s.live[g]);
    assert NodeOk(s.nodes[p], v.ext, v.st, s.live, s.pcs);
    if b !in s.live[g].held {
      var t :| CallHas(s.pcs, t, g, b);
      assert CallOk(s.nodes, v.shape, s.live, s.pcs[t]);
    }
  }
}
