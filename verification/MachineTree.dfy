/** The tree and the metadata region in every legal run, stale pops included.

    A stale pop changes the head of the free list and where one thread stands.  The tree does not depend on
    either, so this invariant needs no more than that addresses are words, that pointers to slots point to
    slots, and that granted blocks are in the tree.
 */
module MachineTree {
  import opened Words
  import opened Layout
  import opened SearchTree
  import opened FreeStack
  import opened Machine
  import opened MachineInvariant
  import opened MachineSteps
  import opened MachineMoves
  import opened MachineCalls
  import opened MachineOwners
  import opened MachineSafety

  predicate SlotPtr(slots: Slots, p: Ptr) {
    p == NIL || p in slots
  }

  ghost predicate NodesOk(nodes: Nodes) {
    forall p :: p in nodes ==> nodes[p].addr < WORD
  }

  ghost predicate SlotsOk(slots: Slots, head: Ptr) {
    && SlotPtr(slots, head)
    && forall p {:trigger slots[p]} :: p in slots ==> slots[p].addr < WORD && SlotPtr(slots, slots[p].next)
  }

  /** The slots a thread remembers exist, and the block it is about to record has an address. */
  predicate HandOk(slots: Slots, pc: Pc) {
    match pc
    case PopNext(_, _, top) => top in slots
    case PopCas(_, _, top, next) => top in slots && SlotPtr(slots, next)
    case PushHead(_, slot) => slot in slots
    case PushLink(_, slot, top) => slot in slots && SlotPtr(slots, top)
    case PushCas(_, slot, top) => slot in slots && SlotPtr(slots, top)
    case NewNode(_, _, addr, _) => addr < WORD
    case _ => true
  }

  ghost predicate HandsOk(slots: Slots, pcs: map<nat, Pc>) {
    forall t {:trigger HandOk(slots, pcs[t])} :: t in pcs ==> HandOk(slots, pcs[t])
  }

  ghost predicate GrantsIn(live: map<nat, Grant>, inserted: set<nat>) {
    forall g {:trigger live[g]} :: g in live ==> live[g].addr in inserted
  }

  ghost predicate Planted(c: Config, s: State, shape: Shape) {
    && c.WellFormed() && s.bump < WORD
    && MetaInv(c, s.nodes, s.slots, s.nodeBump)
    && TreeInv(s.root, s.nodes, shape, s.inserted, s.pcs)
    && NodesOk(s.nodes)
    && SlotsOk(s.slots, s.head)
    && HandsOk(s.slots, s.pcs)
    && GrantsIn(s.live, s.inserted)
  }

  /** The shapes under which a state is in order; a set, so that Dafny does not take the predicate apart. */
  ghost function Shapes(c: Config, s: State): iset<Shape> {
    iset shape | Planted(c, s, shape)
  }

  ghost predicate Rooted(c: Config, s: State) {
    exists shape :: shape in Shapes(c, s)
  }

  // ---- Each move keeps it ----------------------------------------------------------------------------

  /** A thread moves on, and nothing changes but counters and the head of the free list. */
  lemma {:induction false} StandRooted(c: Config, s: State, shape: Shape, t: nat, pc: Pc, head: Ptr, bump: nat,
      active: int)
    requires shape in Shapes(c, s) && t in s.pcs && SlotPtr(s.slots, head) && bump < WORD
    requires TreePc(s.root, s.nodes, shape, pc) && HandOk(s.slots, pc)
    requires PrivateNode(pc) != NIL ==> forall u :: u in s.pcs && u != t ==> PrivateNode(s.pcs[u]) != PrivateNode(pc)
    ensures Rooted(c, Goto(s.(head := head, bump := bump, active := active), t, pc))
  {
    TreeMove(s.root, s.nodes, shape, s.inserted, s.pcs, t, pc);
    var s1 := Goto(s.(head := head, bump := bump, active := active), t, pc);
    assert HandsOk(s.slots, s1.pcs);
    assert shape in Shapes(c, s1);
  }

  lemma {:induction false} MoveRooted(c: Config, s: State, shape: Shape, t: nat, pc: Pc)
    requires shape in Shapes(c, s) && t in s.pcs
    requires TreePc(s.root, s.nodes, shape, pc) && HandOk(s.slots, pc)
    requires PrivateNode(pc) != NIL ==> PrivateNode(pc) == PrivateNode(s.pcs[t])
    ensures Rooted(c, Goto(s, t, pc))
  {
    StandRooted(c, s, shape, t, pc, s.head, s.bump, s.active);
    assert s.(head := s.head, bump := s.bump, active := s.active) == s;
  }

  /** Any pop, stale or not. */
  lemma {:induction false} RootedPop(c: Config, s: State, shape: Shape, t: nat, pc: Pc)
    requires shape in Shapes(c, s) && t in s.pcs && s.pcs[t] == pc && (pc.PopHead? || pc.PopNext? || pc.PopCas?)
    ensures Rooted(c, Exec(c, s, t))
  {
    ExecPop(c, s, t, pc);
    assert HandOk(s.slots, pc);
    if pc.PopHead? {
      MoveRooted(c, s, shape, t, if s.head == NIL then Bump(pc.want, pc.mask) else PopNext(pc.want, pc.mask, s.head));
    } else if pc.PopNext? {
      MoveRooted(c, s, shape, t, PopCas(pc.want, pc.mask, pc.top, SlotAt(s.slots, pc.top).next));
    } else if s.head != pc.top {
      MoveRooted(c, s, shape, t, PopHead(pc.want, pc.mask));
    } else {
      StandRooted(c, s, shape, t, Taken(s.slots, pc, pc.top), pc.next, s.bump, s.active);
      assert s.(head := pc.next, bump := s.bump, active := s.active) == s.(head := pc.next);
    }
  }

  lemma {:induction false} RootedPush(c: Config, s: State, shape: Shape, t: nat, pc: Pc)
    requires shape in Shapes(c, s) && t in s.pcs && s.pcs[t] == pc && (pc.PushHead? || pc.PushLink? || pc.PushCas?)
    ensures Rooted(c, Exec(c, s, t))
  {
    ExecPush(c, s, t, pc);
    assert HandOk(s.slots, pc);
    if pc.PushHead? {
      MoveRooted(c, s, shape, t, PushLink(pc.push, pc.slot, s.head));
    } else if pc.PushLink? {
      RootedPushLink(c, s, shape, t, pc);
    } else if s.head != pc.seenTop {
      MoveRooted(c, s, shape, t, PushHead(pc.push, pc.slot));
    } else {
      StandRooted(c, s, shape, t, AfterPush(pc.push), pc.slot, s.bump, s.active);
      assert s.(head := pc.slot, bump := s.bump, active := s.active) == s.(head := pc.slot);
    }
  }

  lemma {:induction false} RootedPushLink(c: Config, s: State, shape: Shape, t: nat, pc: Pc)
    requires shape in Shapes(c, s) && t in s.pcs && s.pcs[t] == pc && pc.PushLink?
    ensures Rooted(c, Goto(s.(slots := Relinked(s.slots, pc.slot, pc.seenTop)), t,
                           PushCas(pc.push, pc.slot, pc.seenTop)))
  {
    assert HandOk(s.slots, pc);
    RelinkRooted(c, s, shape, pc.slot, pc.seenTop);
    MoveRooted(c, s.(slots := Relinked(s.slots, pc.slot, pc.seenTop)), shape, t,
               PushCas(pc.push, pc.slot, pc.seenTop));
  }

  lemma {:induction false} RelinkRooted(c: Config, s: State, shape: Shape, p: Ptr, next: Ptr)
    requires shape in Shapes(c, s) && p in s.slots && SlotPtr(s.slots, next)
    ensures shape in Shapes(c, s.(slots := Relinked(s.slots, p, next)))
  {
    var slots := Relinked(s.slots, p, next);
    MetaSameKeys(c, s.nodes, s.nodes, s.slots, slots, s.nodeBump);
    HandsMore(s.slots, slots, s.pcs);
  }

  /** More slots, or other contents: threads still find those they remember. */
  lemma {:induction false} HandsMore(a: Slots, b: Slots, pcs: map<nat, Pc>)
    requires HandsOk(a, pcs) && forall p :: p in a ==> p in b
    ensures HandsOk(b, pcs)
  {
    forall t | t in pcs ensures HandOk(b, pcs[t]) { assert HandOk(a, pcs[t]); }
  }

  lemma {:induction false} NewNodeRooted(c: Config, s: State, shape: Shape, t: nat, pc: Pc)
    requires shape in Shapes(c, s) && t in s.pcs && s.pcs[t] == pc && pc.NewNode?
             && s.nodeBump + NODE_BYTES <= c.nodeEnd
    ensures Rooted(c, Goto(s.(nodes := s.nodes[s.nodeBump := Node(pc.addr, pc.size, NormalizeMask(pc.mask), NIL, NIL)],
                              nodeBump := s.nodeBump + NODE_BYTES), t, InsRoot(Insertion(pc.want, s.nodeBump, []))))
  {
    assert HandOk(s.slots, pc);
    var n := Node(pc.addr, pc.size, NormalizeMask(pc.mask), NIL, NIL);
    AddNodeRooted(c, s, shape, n);
    var s1 := s.(nodes := s.nodes[s.nodeBump := n], nodeBump := s.nodeBump + NODE_BYTES);
    var to := InsRoot(Insertion(pc.want, s.nodeBump, []));
    StandRooted(c, s1, shape, t, to, s1.head, s1.bump, s1.active);
    assert s1.(head := s1.head, bump := s1.bump, active := s1.active) == s1;
  }

  lemma {:induction false} AddNodeRooted(c: Config, s: State, shape: Shape, n: Node)
    requires shape in Shapes(c, s) && s.nodeBump + NODE_BYTES <= c.nodeEnd && n.addr < WORD
    ensures s.nodeBump != NIL && s.nodeBump !in Ptrs(shape)
    ensures forall t :: t in s.pcs ==> PrivateNode(s.pcs[t]) != s.nodeBump
    ensures shape in Shapes(c, s.(nodes := s.nodes[s.nodeBump := n], nodeBump := s.nodeBump + NODE_BYTES))
  {
    MetaNewNode(c, s.nodes, s.slots, s.nodeBump, n);
    NodeUnknown(s.root, s.nodes, shape, s.inserted, s.pcs, s.nodeBump);
    TreeAddNode(s.root, s.nodes, shape, s.inserted, s.pcs, s.nodeBump, n);
  }

  lemma {:induction false} NewSlotRooted(c: Config, s: State, shape: Shape, t: nat, pc: Pc)
    requires shape in Shapes(c, s) && t in s.pcs && s.pcs[t] == pc && pc.NewSlot?
             && s.nodeBump + SLOT_BYTES <= c.nodeEnd
    ensures Rooted(c,
            Goto(s.(slots :=
                s.slots[s.nodeBump := Slot(NodeAt(s.nodes, pc.cur).addr, NodeAt(s.nodes, pc.cur).size, NIL)],
                              nodeBump := s.nodeBump + SLOT_BYTES), t, PushHead(Release, s.nodeBump)))
  {
    var n := Slot(NodeAt(s.nodes, pc.cur).addr, NodeAt(s.nodes, pc.cur).size, NIL);
    AddSlotRooted(c, s, shape, n);
    var s1 := s.(slots := s.slots[s.nodeBump := n], nodeBump := s.nodeBump + SLOT_BYTES);
    MoveRooted(c, s1, shape, t, PushHead(Release, s.nodeBump));
  }

  lemma {:induction false} AddSlotRooted(c: Config, s: State, shape: Shape, n: Slot)
    requires shape in Shapes(c, s) && s.nodeBump + SLOT_BYTES <= c.nodeEnd && n.addr < WORD && n.next == NIL
    ensures shape in Shapes(c, s.(slots := s.slots[s.nodeBump := n], nodeBump := s.nodeBump + SLOT_BYTES))
  {
    MetaNewSlot(c, s.nodes, s.slots, s.nodeBump, n);
    HandsMore(s.slots, s.slots[s.nodeBump := n], s.pcs);
  }

  lemma {:induction false} NoRecordRooted(c: Config, s: State, shape: Shape, t: nat, bytes: nat)
    requires shape in Shapes(c, s) && t in s.pcs
    ensures Rooted(c, Goto(s.(nodeBump := s.nodeBump + bytes), t, Idle))
  {
    MetaBump(c, s.nodes, s.slots, s.nodeBump, bytes);
    var s1 := s.(nodeBump := s.nodeBump + bytes);
    assert shape in Shapes(c, s1);
    MoveRooted(c, s1, shape, t, Idle);
  }

  lemma {:induction false} IncRooted(c: Config, s: State, shape: Shape, t: nat, pc: Pc)
    requires shape in Shapes(c, s) && t in s.pcs && s.pcs[t] == pc && pc.Inc?
    ensures Rooted(c, DoInc(s, t, pc))
  {
    assert TreePc(s.root, s.nodes, shape, pc);
    assert pc.addr in s.inserted;
    var s1 := s.(active := s.active + 1, nextGrant := s.nextGrant + 1,
        live := s.live[s.nextGrant := Grant(pc.addr, pc.want, pc.mask)]);
    assert shape in Shapes(c, s1);
    MoveRooted(c, s1, shape, t, Idle);
  }

  lemma {:induction false} RootedAlloc(c: Config, s: State, shape: Shape, t: nat, pc: Pc)
    requires shape in Shapes(c, s) && t in s.pcs && s.pcs[t] == pc && NoWrap(s, t)
    requires pc.Bump? || pc.NewNode? || pc.NewSlot? || pc.Inc?
    ensures Rooted(c, Exec(c, s, t))
  {
    ExecAlloc(c, s, t, pc);
    if pc.Bump? {
      var after := s.bump + pc.want;
      StandRooted(c, s, shape, t, if after > c.payloadEnd then Idle else NewNode(pc.want, pc.mask, s.bump, pc.want),
          s.head, after, s.active);
      assert s.(head := s.head, bump := after, active := s.active) == s.(bump := after);
    } else if pc.Inc? {
      IncRooted(c, s, shape, t, pc);
    } else if pc.NewNode? {
      if s.nodeBump + NODE_BYTES <= c.nodeEnd { NewNodeRooted(c, s, shape, t, pc); } else {
        NoRecordRooted(c, s, shape, t, NODE_BYTES);
      }
    } else {
      if s.nodeBump + SLOT_BYTES <= c.nodeEnd { NewSlotRooted(c, s, shape, t, pc); } else {
        NoRecordRooted(c, s, shape, t, SLOT_BYTES);
      }
    }
  }

  // ---- Insertions --------------------------------------------------------------------------------------

  lemma {:induction false} RootedInsRoot(c: Config, s: State, shape: Shape, t: nat, pc: Pc)
    requires shape in Shapes(c, s) && t in s.pcs && s.pcs[t] == pc && pc.InsRoot?
    ensures Rooted(c, Goto(s, t, if s.root == NIL then InsRootCas(pc.ins) else InsAt(pc.ins, s.root)))
  {
    assert TreePc(s.root, s.nodes, shape, pc);
    if s.root == NIL {
      LinkNotLost(s.root, s.nodes, pc.ins.lost, RootLink);
      MoveRooted(c, s, shape, t, InsRootCas(pc.ins));
    } else {
      MoveRooted(c, s, shape, t, InsAt(pc.ins, s.root));
    }
  }

  lemma {:induction false} RootedLose(c: Config, s: State, shape: Shape, t: nat, pc: Pc)
    requires shape in Shapes(c, s) && t in s.pcs && s.pcs[t] == pc && (pc.InsRootCas? || pc.InsCas?)
    ensures pc.InsRootCas? && s.root != NIL ==>
            Rooted(c, Goto(s, t, InsRoot(pc.ins.(lost := pc.ins.lost + [RootLink]))))
    ensures var k, x := NodeAt(s.nodes, pc.ins.node).addr, NodeAt(s.nodes, if pc.InsCas? then pc.cur else NIL);
            pc.InsCas? && Child(x, k) != NIL ==>
              Rooted(c, Goto(s, t, InsAt(pc.ins.(lost := pc.ins.lost + [LinkFor(x, pc.cur, k)]), pc.cur)))
  {
    assert TreePc(s.root, s.nodes, shape, pc);
    if pc.InsRootCas? {
      if s.root != NIL {
        LoseLink(s.root, s.nodes, shape, pc.ins, RootLink);
        MoveRooted(c, s, shape, t, InsRoot(pc.ins.(lost := pc.ins.lost + [RootLink])));
      }
    } else {
      var k, x := NodeAt(s.nodes, pc.ins.node).addr, NodeAt(s.nodes, pc.cur);
      if Child(x, k) != NIL {
        LoseLink(s.root, s.nodes, shape, pc.ins, LinkFor(x, pc.cur, k));
        MoveRooted(c, s, shape, t, InsAt(pc.ins.(lost := pc.ins.lost + [LinkFor(x, pc.cur, k)]), pc.cur));
      }
    }
  }

  /** The tree has changed as thread `t` moved on to count its block; nothing else has. */
  lemma {:induction false} InsertedRooted(c: Config, s: State, grown: Shape, t: nat, pc: Pc, root: Ptr, nodes: Nodes)
    requires Rooted(c, s) && t in s.pcs && (pc.InsRootCas? || pc.InsCas?) && nodes.Keys == s.nodes.Keys
             && NodesOk(nodes)
    requires var n := NodeAt(nodes, pc.ins.node);
             TreeInv(root, nodes, grown, s.inserted + {n.addr}, s.pcs[t := Inc(pc.ins.want, n.addr, n.mask)])
    ensures Rooted(c, Inserted(s.(root := root, nodes := nodes), t, pc.ins))
  {
    var shape :| shape in Shapes(c, s);
    var n := NodeAt(nodes, pc.ins.node);
    MetaSameKeys(c, s.nodes, nodes, s.slots, s.slots, s.nodeBump);
    var s1 := Inserted(s.(root := root, nodes := nodes), t, pc.ins);
    assert s1.pcs == s.pcs[t := Inc(pc.ins.want, n.addr, n.mask)] && s1.inserted == s.inserted + {n.addr};
    assert HandsOk(s.slots, s1.pcs);
    assert grown in Shapes(c, s1);
  }

  lemma {:induction false} RootedRootWin(c: Config, s: State, shape: Shape, t: nat, pc: Pc)
    requires shape in Shapes(c, s) && t in s.pcs && s.pcs[t] == pc && pc.InsRootCas? && s.root == NIL
    ensures Rooted(c, Inserted(s.(root := pc.ins.node), t, pc.ins))
  {
    assert TreePc(s.root, s.nodes, shape, pc);
    var n := s.nodes[pc.ins.node];
    TreePlant(s.nodes, shape, s.inserted, s.pcs, t, pc.ins.node, Inc(pc.ins.want, n.addr, n.mask));
    InsertedRooted(c, s, Branch(Leaf, pc.ins.node, Leaf), t, pc, pc.ins.node, s.nodes);
    assert s.(root := pc.ins.node, nodes := s.nodes) == s.(root := pc.ins.node);
  }

  lemma {:induction false} RootedWin(c: Config, s: State, shape: Shape, t: nat, pc: Pc)
    requires shape in Shapes(c, s) && t in s.pcs && s.pcs[t] == pc && pc.InsCas?
    requires Child(NodeAt(s.nodes, pc.cur), NodeAt(s.nodes, pc.ins.node).addr) == NIL
    ensures var x := NodeAt(s.nodes, pc.cur);
            Rooted(c, Inserted(s.(nodes :=
                s.nodes[pc.cur := WithChild(x, NodeAt(s.nodes, pc.ins.node).addr, pc.ins.node)]), t, pc.ins))
  {
    assert TreePc(s.root, s.nodes, shape, pc);
    CanLinkHere(s.root, s.nodes, shape, pc);
    var n := s.nodes[pc.ins.node];
    var nodes := SetChild(s.nodes, pc.cur, n.addr, pc.ins.node);
    assert NodeAt(nodes, pc.ins.node).addr == n.addr && NodeAt(nodes, pc.ins.node).mask == n.mask;
    TreeGrow(s.root, s.nodes, shape, s.inserted, s.pcs, t, n.addr, pc.cur, pc.ins.node,
        Inc(pc.ins.want, n.addr, n.mask));
    InsertedRooted(c, s, Grow(s.nodes, shape, n.addr, pc.ins.node), t, pc, s.root, nodes);
    assert s.(root := s.root, nodes := nodes) == s.(nodes := nodes);
  }

  /** Storing a size or a mask in a record. */
  lemma {:induction false} StoreRooted(c: Config, s: State, shape: Shape, p: Ptr, size: nat, mask: Mask)
    requires shape in Shapes(c, s) && p in s.nodes
    ensures shape in Shapes(c, s.(nodes := s.nodes[p := s.nodes[p].(size := size, mask := mask)]))
  {
    var nodes := s.nodes[p := s.nodes[p].(size := size, mask := mask)];
    TreeFrame(s.root, s.nodes, nodes, shape, s.inserted, s.pcs);
    MetaSameKeys(c, s.nodes, nodes, s.slots, s.slots, s.nodeBump);
  }

  lemma {:induction false} RootedAt(c: Config, s: State, shape: Shape, t: nat, pc: Pc)
    requires shape in Shapes(c, s) && t in s.pcs && s.pcs[t] == pc && pc.InsAt?
    ensures var k, x := NodeAt(s.nodes, pc.ins.node).addr, NodeAt(s.nodes, pc.cur);
            Rooted(c, if k == x.addr
                      then Goto(s.(nodes := s.nodes[pc.cur := x.(size := NodeAt(s.nodes, pc.ins.node).size)]), t,
                          InsMerge(pc.ins, pc.cur))
                      else Goto(s, t, if Child(x, k) == NIL then InsCas(pc.ins, pc.cur)
                          else InsAt(pc.ins, Child(x, k))))
  {
    assert TreePc(s.root, s.nodes, shape, pc);
    var k, x := NodeAt(s.nodes, pc.ins.node).addr, NodeAt(s.nodes, pc.cur);
    OnPathIn(s.nodes, shape, k, pc.cur);
    if k == x.addr {
      StoreRooted(c, s, shape, pc.cur, NodeAt(s.nodes, pc.ins.node).size, x.mask);
      var s1 := s.(nodes := s.nodes[pc.cur := x.(size := NodeAt(s.nodes, pc.ins.node).size)]);
      assert TreePc(s1.root, s1.nodes, shape, pc);
      MoveRooted(c, s1, shape, t, InsMerge(pc.ins, pc.cur));
    } else if Child(x, k) == NIL {
      LinkNotLost(s.root, s.nodes, pc.ins.lost, LinkFor(s.nodes[pc.cur], pc.cur, k));
      MoveRooted(c, s, shape, t, InsCas(pc.ins, pc.cur));
    } else {
      OnPathStep(s.nodes, s.root, shape, -1, WORD, k, pc.cur);
      MoveRooted(c, s, shape, t, InsAt(pc.ins, Child(x, k)));
    }
  }

  lemma {:induction false} RootedMerge(c: Config, s: State, shape: Shape, t: nat, pc: Pc)
    requires shape in Shapes(c, s) && t in s.pcs && s.pcs[t] == pc && pc.InsMerge?
    ensures Rooted(c, DoInsMerge(s, t, pc))
  {
    assert TreePc(s.root, s.nodes, shape, pc);
    var n, x := s.nodes[pc.ins.node], s.nodes[pc.cur];
    StoreRooted(c, s, shape, pc.cur, x.size, x.mask + n.mask);
    var s1 := s.(nodes := WithMask(s.nodes, pc.cur, x.mask + n.mask));
    assert TreePc(s1.root, s1.nodes, shape, pc);
    assert HasKey(s1.nodes, shape, n.addr) by { assert Linked(s1.nodes, shape, pc.cur, n.addr); }
    MoveRooted(c, s1, shape, t, Inc(pc.ins.want, n.addr, n.mask));
  }

  lemma {:induction false} RootedInsert(c: Config, s: State, shape: Shape, t: nat, pc: Pc)
    requires shape in Shapes(c, s) && t in s.pcs && s.pcs[t] == pc && PrivateNode(pc) != NIL
    ensures Rooted(c, Exec(c, s, t))
  {
    ExecInsert(c, s, t, pc);
    if pc.InsRoot? {
      RootedInsRoot(c, s, shape, t, pc);
    } else if pc.InsRootCas? {
      if s.root != NIL { RootedLose(c, s, shape, t, pc); } else { RootedRootWin(c, s, shape, t, pc); }
    } else if pc.InsAt? {
      RootedAt(c, s, shape, t, pc);
    } else if pc.InsCas? {
      if Child(NodeAt(s.nodes, pc.cur), NodeAt(s.nodes, pc.ins.node).addr) != NIL { RootedLose(c, s, shape, t, pc); }
      else { RootedWin(c, s, shape, t, pc); }
    } else {
      RootedMerge(c, s, shape, t, pc);
    }
  }

  // ---- Searches and owners -----------------------------------------------------------------------------

  lemma {:induction false} RootedFind(c: Config, s: State, shape: Shape, t: nat, pc: Pc)
    requires shape in Shapes(c, s) && t in s.pcs && s.pcs[t] == pc && (pc.FindRoot? || pc.FindAt? || pc.Looked?)
    ensures Rooted(c, Exec(c, s, t))
  {
    ExecFind(c, s, t, pc);
    assert TreePc(s.root, s.nodes, shape, pc);
    if pc.Looked? {
      MoveRooted(c, s, shape, t, Idle);
    } else if pc.FindRoot? {
      if s.root == NIL {
        assert shape == Leaf;
        assert !MustFind(pc.search);
        MoveRooted(c, s, shape, t, Looked(pc.search.addr, pc.search.present, false));
      } else {
        MoveRooted(c, s, shape, t, FindAt(pc.search, s.root));
      }
    } else {
      RootedFindAt(c, s, shape, t, pc);
    }
  }

  lemma {:induction false} RootedFindAt(c: Config, s: State, shape: Shape, t: nat, pc: Pc)
    requires shape in Shapes(c, s) && t in s.pcs && s.pcs[t] == pc && pc.FindAt?
    ensures var x := NodeAt(s.nodes, pc.cur);
            Rooted(c, if pc.search.addr == x.addr then Hit(s, t, pc.search, pc.cur)
                      else if Child(x, pc.search.addr) == NIL then Miss(s, t, pc.search)
                      else Goto(s, t, FindAt(pc.search, Child(x, pc.search.addr))))
  {
    assert TreePc(s.root, s.nodes, shape, pc);
    var k, x := pc.search.addr, NodeAt(s.nodes, pc.cur);
    OnPathIn(s.nodes, shape, k, pc.cur);
    if k == x.addr {
      assert HasKey(s.nodes, shape, k);
      match pc.search
      case ForShare(_, _, _, _) => MoveRooted(c, s, shape, t, ShareOr(pc.search, pc.cur));
      case ForFree(_, _, _) => MoveRooted(c, s, shape, t, ClearLoad(pc.search, pc.cur));
      case ForLookup(addr, present) => MoveRooted(c, s, shape, t, Looked(addr, present, true));
    } else if Child(x, k) == NIL {
      if MustFind(pc.search) { NeverMiss(s.root, s.nodes, shape, pc); }
      MoveRooted(c, s, shape, t, Looked(k, pc.search.present, false));
    } else {
      OnPathStep(s.nodes, s.root, shape, -1, WORD, k, pc.cur);
      MoveRooted(c, s, shape, t, FindAt(pc.search, Child(x, k)));
    }
  }

  /** Grants come and go or change their holders; those left are where they were. */
  lemma {:induction false} LiveRooted(c: Config, s: State, shape: Shape, live: map<nat, Grant>)
    requires shape in Shapes(c, s)
    requires forall g :: g in live ==> g in s.live && live[g].addr == s.live[g].addr
    ensures shape in Shapes(c, s.(live := live))
  {
  }

  lemma {:induction false} RootedShare(c: Config, s: State, shape: Shape, t: nat, pc: Pc)
    requires shape in Shapes(c, s) && t in s.pcs && s.pcs[t] == pc && pc.ShareOr?
    ensures Rooted(c, DoShareOr(s, t, pc))
  {
    assert TreePc(s.root, s.nodes, shape, pc);
    var q, x := pc.search, s.nodes[pc.cur];
    StoreRooted(c, s, shape, pc.cur, x.size, x.mask + q.bits);
    var s1 := s.(nodes := WithMask(s.nodes, pc.cur, x.mask + q.bits));
    var s2 := GiveHeld(s1, q.grant, {q.hold} + q.bits);
    LiveRooted(c, s1, shape, s2.live);
    assert s1.(live := s2.live) == s2;
    MoveRooted(c, s2, shape, t, Idle);
  }

  /** The mask is swapped; with the last owner the grant ends. */
  lemma {:induction false} RootedSwap(c: Config, s: State, shape: Shape, t: nat, pc: Pc, left: Mask)
    requires shape in Shapes(c, s) && t in s.pcs && s.pcs[t] == pc && pc.ClearCas? && pc.search.ForFree?
    ensures Rooted(c, Goto(s.(nodes := WithMask(s.nodes, pc.cur, left)), t, Idle))
    ensures Rooted(c, Goto(s.(nodes := WithMask(s.nodes, pc.cur, left), live := s.live - {pc.search.grant}), t,
                           NewSlot(pc.cur)))
  {
    assert TreePc(s.root, s.nodes, shape, pc);
    StoreRooted(c, s, shape, pc.cur, s.nodes[pc.cur].size, left);
    var s1 := s.(nodes := WithMask(s.nodes, pc.cur, left));
    MoveRooted(c, s1, shape, t, Idle);
    LiveRooted(c, s1, shape, s.live - {pc.search.grant});
    MoveRooted(c, s1.(live := s.live - {pc.search.grant}), shape, t, NewSlot(pc.cur));
  }

  lemma {:induction false} RootedClear(c: Config, s: State, shape: Shape, t: nat, pc: Pc)
    requires shape in Shapes(c, s) && t in s.pcs && s.pcs[t] == pc && pc.ClearCas? && pc.search.ForFree?
    ensures Rooted(c, Exec(c, s, t))
  {
    assert TreePc(s.root, s.nodes, shape, pc);
    ExecOwner(c, s, t, pc);
    if NodeAt(s.nodes, pc.cur).mask != pc.seen {
      MoveRooted(c, s, shape, t, ClearLoad(pc.search, pc.cur));
    } else {
      RootedSwap(c, s, shape, t, pc, pc.seen - pc.search.bits);
    }
  }

  lemma {:induction false} RootedOwner(c: Config, s: State, shape: Shape, t: nat, pc: Pc)
    requires shape in Shapes(c, s) && t in s.pcs && s.pcs[t] == pc
             && (pc.ShareOr? || pc.ClearLoad? || pc.ClearCas? || pc.Dec?)
    ensures Rooted(c, Exec(c, s, t))
  {
    assert TreePc(s.root, s.nodes, shape, pc);
    ExecOwner(c, s, t, pc);
    if pc.ShareOr? {
      RootedShare(c, s, shape, t, pc);
    } else if pc.ClearLoad? {
      MoveRooted(c, s, shape, t, ClearCas(pc.search, pc.cur, NodeAt(s.nodes, pc.cur).mask));
    } else if pc.ClearCas? {
      RootedClear(c, s, shape, t, pc);
    } else {
      StandRooted(c, s, shape, t, Idle, s.head, s.bump, s.active - 1);
      assert s.(head := s.head, bump := s.bump, active := s.active - 1) == s.(active := s.active - 1);
    }
  }

  // ---- Whole runs --------------------------------------------------------------------------------------

  lemma {:induction false} RootedStart(c: Config, s: State, shape: Shape, t: nat, call: Call)
    requires shape in Shapes(c, s) && t in s.pcs && Allowed(s, call)
    ensures Rooted(c, Begin(s, t, call))
  {
    var s1 := Begin(s, t, call).(pcs := s.pcs);
    var pc := Begin(s, t, call).pcs[t];
    assert Begin(s, t, call) == Goto(s1, t, pc);
    LiveRooted(c, s, shape, s1.live);
    assert s.(live := s1.live) == s1;
    if pc.FindRoot? { assert HasKey(s.nodes, shape, pc.search.addr) <==> pc.search.addr in s.inserted; }
    MoveRooted(c, s1, shape, t, pc);
  }

  /** Every legal move keeps the tree and the metadata region in order. */
  lemma {:induction false} StepRooted(c: Config, s: State, m: Move)
    requires Rooted(c, s) && Legal(s, m)
    ensures Rooted(c, Do(c, s, m))
  {
    var shape :| shape in Shapes(c, s);
    match m {
      case Start(t, call) => RootedStart(c, s, shape, t, call);
      case Run(t) => RootedRun(c, s, shape, t, s.pcs[t]);
    }
  }

  lemma {:induction false} RootedRun(c: Config, s: State, shape: Shape, t: nat, pc: Pc)
    requires shape in Shapes(c, s) && t in s.pcs && s.pcs[t] == pc && !pc.Idle? && NoWrap(s, t)
    ensures Rooted(c, Exec(c, s, t))
  {
    if pc.PopHead? || pc.PopNext? || pc.PopCas? {
      RootedPop(c, s, shape, t, pc);
    } else if pc.PushHead? || pc.PushLink? || pc.PushCas? {
      RootedPush(c, s, shape, t, pc);
    } else if pc.Bump? || pc.NewNode? || pc.NewSlot? || pc.Inc? {
      RootedAlloc(c, s, shape, t, pc);
    } else if pc.FindRoot? || pc.FindAt? || pc.Looked? {
      RootedFind(c, s, shape, t, pc);
    } else if pc.ShareOr? || pc.ClearLoad? || pc.ClearCas? || pc.Dec? {
      RootedOwner(c, s, shape, t, pc);
    } else {
      assert TreePc(s.root, s.nodes, shape, pc);
      RootedInsert(c, s, shape, t, pc);
    }
  }

  lemma {:induction false} InitialRooted(c: Config, threads: set<nat>)
    requires c.WellFormed()
    ensures Rooted(c, Initial(c, threads))
  {
    var s := Initial(c, threads);
    IdleInOrder(s.pcs);
    assert Leaf in Shapes(c, s);
  }

  lemma {:induction false} RunsRooted(c: Config, s: State, moves: seq<Move>)
    requires Rooted(c, s) && LegalRun(c, s, moves)
    ensures Rooted(c, After(c, s, moves))
    decreases |moves|
  {
    if moves != [] {
      StepRooted(c, s, moves[0]);
      RunsRooted(c, Do(c, s, moves[0]), moves[1..]);
    }
  }
}
