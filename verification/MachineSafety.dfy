/** Safety of the concurrent block allocator over whole runs. */
module MachineSafety {
  import opened Words
  import opened Layout
  import opened SearchTree
  import opened FreeStack
  import opened Machine
  import opened MachineInvariant
  import opened MachineMoves
  import opened MachineCalls
  import opened MachineOwners

  // ---- What Exec does, pc by pc -------------------------------------------------------------------

  lemma {:induction false} ExecPop(c: Config, s: State, t: nat, pc: Pc)
    requires t in s.pcs && s.pcs[t] == pc
    ensures pc.PopHead? ==>
            Exec(c, s, t)
                == Goto(s, t, if s.head == NIL then Bump(pc.want, pc.mask) else PopNext(pc.want, pc.mask, s.head))
    ensures pc.PopNext? ==> Exec(c, s, t) == Goto(s, t, PopCas(pc.want, pc.mask, pc.top, SlotAt(s.slots, pc.top).next))
    ensures pc.PopCas? && s.head != pc.top ==> Exec(c, s, t) == Goto(s, t, PopHead(pc.want, pc.mask))
    ensures pc.PopCas? && s.head == pc.top ==> Exec(c, s, t) == Goto(s.(head := pc.next), t, Taken(s.slots, pc, pc.top))
  {
  }

  lemma {:induction false} RunPop(c: Config, s: State, v: View, t: nat, pc: Pc)
    requires v in Views(c, s) && t in s.pcs && s.pcs[t] == pc && (pc.PopHead? || pc.PopNext? || pc.PopCas?)
    requires !StalePop(s, Run(t))
    ensures Good(c, Exec(c, s, t))
  {
    ExecPop(c, s, t, pc);
    if pc.PopHead? {
      StepPopHead(c, s, v, t, pc);
    } else if pc.PopNext? {
      StepPopNext(c, s, v, t, pc);
    } else if s.head != pc.top {
      StepPopLose(c, s, v, t, pc);
    } else {
      StepPopTake(c, s, v, t, pc);
    }
  }

  lemma {:induction false} ExecPush(c: Config, s: State, t: nat, pc: Pc)
    requires t in s.pcs && s.pcs[t] == pc
    ensures pc.PushHead? ==> Exec(c, s, t) == Goto(s, t, PushLink(pc.push, pc.slot, s.head))
    ensures pc.PushLink? ==>
      Exec(c, s, t)
          == Goto(s.(slots := Relinked(s.slots, pc.slot, pc.seenTop)), t, PushCas(pc.push, pc.slot, pc.seenTop))
    ensures pc.PushCas? && s.head != pc.seenTop ==> Exec(c, s, t) == Goto(s, t, PushHead(pc.push, pc.slot))
    ensures pc.PushCas? && s.head == pc.seenTop ==> Exec(c, s, t) == Goto(s.(head := pc.slot), t, AfterPush(pc.push))
  {
  }

  lemma {:induction false} RunPush(c: Config, s: State, v: View, t: nat, pc: Pc)
    requires v in Views(c, s) && t in s.pcs && s.pcs[t] == pc && (pc.PushHead? || pc.PushLink? || pc.PushCas?)
    ensures Good(c, Exec(c, s, t))
  {
    ExecPush(c, s, t, pc);
    if pc.PushHead? {
      StepPushHead(c, s, v, t, pc);
    } else if pc.PushLink? {
      StepPushLink(c, s, v, t, pc);
    } else if s.head != pc.seenTop {
      StepPushLose(c, s, v, t, pc);
    } else {
      StepPushGive(c, s, v, t, pc);
    }
  }

  lemma {:induction false} ExecBump(c: Config, s: State, t: nat, pc: Pc)
    requires c.WellFormed() && t in s.pcs && s.pcs[t] == pc && NoWrap(s, t)
    ensures pc.Bump? && s.bump + pc.want > c.payloadEnd ==>
      Exec(c, s, t) == Goto(s.(bump := s.bump + pc.want), t, Idle)
    ensures pc.Bump? && s.bump + pc.want <= c.payloadEnd ==>
      Exec(c, s, t) == Goto(s.(bump := s.bump + pc.want), t, NewNode(pc.want, pc.mask, s.bump, pc.want))
  {
  }

  lemma {:induction false} ExecNewNode(c: Config, s: State, t: nat, pc: Pc)
    requires c.WellFormed() && t in s.pcs && s.pcs[t] == pc && NoWrap(s, t)
    ensures pc.NewNode? && s.nodeBump + NODE_BYTES > c.nodeEnd ==>
      Exec(c, s, t) == Goto(s.(nodeBump := s.nodeBump + NODE_BYTES), t, Idle)
    ensures pc.NewNode? && s.nodeBump + NODE_BYTES <= c.nodeEnd ==>
      Exec(c, s, t) == Goto(s.(nodes := s.nodes[s.nodeBump := Node(pc.addr, pc.size, NormalizeMask(pc.mask), NIL, NIL)],
                               nodeBump := s.nodeBump + NODE_BYTES), t, InsRoot(Insertion(pc.want, s.nodeBump, [])))
  {
  }

  lemma {:induction false} ExecNewSlot(c: Config, s: State, t: nat, pc: Pc)
    requires c.WellFormed() && t in s.pcs && s.pcs[t] == pc && NoWrap(s, t)
    ensures pc.NewSlot? && s.nodeBump + SLOT_BYTES > c.nodeEnd ==>
      Exec(c, s, t) == Goto(s.(nodeBump := s.nodeBump + SLOT_BYTES), t, Idle)
    ensures pc.NewSlot? && s.nodeBump + SLOT_BYTES <= c.nodeEnd ==>
      Exec(c, s, t)
          == Goto(s.(slots :=
              s.slots[s.nodeBump := Slot(NodeAt(s.nodes, pc.cur).addr, NodeAt(s.nodes, pc.cur).size, NIL)],
                               nodeBump := s.nodeBump + SLOT_BYTES), t, PushHead(Release, s.nodeBump))
    ensures pc.Inc? ==> Exec(c, s, t) == DoInc(s, t, pc)
  {
  }

  lemma {:induction false} ExecAlloc(c: Config, s: State, t: nat, pc: Pc)
    requires c.WellFormed() && t in s.pcs && s.pcs[t] == pc && NoWrap(s, t)
    ensures pc.Bump? && s.bump + pc.want > c.payloadEnd ==>
      Exec(c, s, t) == Goto(s.(bump := s.bump + pc.want), t, Idle)
    ensures pc.Bump? && s.bump + pc.want <= c.payloadEnd ==>
      Exec(c, s, t) == Goto(s.(bump := s.bump + pc.want), t, NewNode(pc.want, pc.mask, s.bump, pc.want))
    ensures pc.NewNode? && s.nodeBump + NODE_BYTES > c.nodeEnd ==>
      Exec(c, s, t) == Goto(s.(nodeBump := s.nodeBump + NODE_BYTES), t, Idle)
    ensures pc.NewNode? && s.nodeBump + NODE_BYTES <= c.nodeEnd ==>
      Exec(c, s, t) == Goto(s.(nodes := s.nodes[s.nodeBump := Node(pc.addr, pc.size, NormalizeMask(pc.mask), NIL, NIL)],
                               nodeBump := s.nodeBump + NODE_BYTES), t, InsRoot(Insertion(pc.want, s.nodeBump, [])))
    ensures pc.NewSlot? && s.nodeBump + SLOT_BYTES > c.nodeEnd ==>
      Exec(c, s, t) == Goto(s.(nodeBump := s.nodeBump + SLOT_BYTES), t, Idle)
    ensures pc.NewSlot? && s.nodeBump + SLOT_BYTES <= c.nodeEnd ==>
      Exec(c, s, t)
          == Goto(s.(slots :=
              s.slots[s.nodeBump := Slot(NodeAt(s.nodes, pc.cur).addr, NodeAt(s.nodes, pc.cur).size, NIL)],
                               nodeBump := s.nodeBump + SLOT_BYTES), t, PushHead(Release, s.nodeBump))
    ensures pc.Inc? ==> Exec(c, s, t) == DoInc(s, t, pc)
  {
    ExecBump(c, s, t, pc);
    ExecNewNode(c, s, t, pc);
    ExecNewSlot(c, s, t, pc);
  }

  lemma {:induction false} RunAlloc(c: Config, s: State, v: View, t: nat, pc: Pc)
    requires v in Views(c, s) && t in s.pcs && s.pcs[t] == pc && (pc.Bump? || pc.NewNode? || pc.Inc?) && NoWrap(s, t)
    ensures Good(c, Exec(c, s, t))
  {
    ExecAlloc(c, s, t, pc);
    if pc.Bump? {
      if s.bump + pc.want > c.payloadEnd { StepBumpFail(c, s, v, t, pc); } else { StepBump(c, s, v, t, pc); }
    } else if pc.NewNode? {
      if s.nodeBump + NODE_BYTES > c.nodeEnd { StepNewNodeFail(c, s, v, t, pc); } else { StepNewNode(c, s, v, t, pc); }
    } else {
      StepInc(c, s, v, t, pc);
    }
  }

  lemma {:induction false} ExecInsert(c: Config, s: State, t: nat, pc: Pc)
    requires t in s.pcs && s.pcs[t] == pc
    ensures pc.InsRoot? ==>
            Exec(c, s, t) == Goto(s, t, if s.root == NIL then InsRootCas(pc.ins) else InsAt(pc.ins, s.root))
    ensures pc.InsRootCas? && s.root != NIL ==>
            Exec(c, s, t) == Goto(s, t, InsRoot(pc.ins.(lost := pc.ins.lost + [RootLink])))
    ensures pc.InsRootCas? && s.root == NIL ==> Exec(c, s, t) == Inserted(s.(root := pc.ins.node), t, pc.ins)
    ensures pc.InsMerge? ==> Exec(c, s, t) == DoInsMerge(s, t, pc)
    ensures pc.InsAt? ==>
      var k, x := NodeAt(s.nodes, pc.ins.node).addr, NodeAt(s.nodes, pc.cur);
      Exec(c, s, t) ==
      if k == x.addr
          then Goto(s.(nodes := s.nodes[pc.cur := x.(size := NodeAt(s.nodes, pc.ins.node).size)]), t,
              InsMerge(pc.ins, pc.cur))
      else Goto(s, t, if Child(x, k) == NIL then InsCas(pc.ins, pc.cur) else InsAt(pc.ins, Child(x, k)))
    ensures pc.InsCas? ==>
      var k, x := NodeAt(s.nodes, pc.ins.node).addr, NodeAt(s.nodes, pc.cur);
      Exec(c, s, t) ==
      if Child(x, k) != NIL then Goto(s, t, InsAt(pc.ins.(lost := pc.ins.lost + [LinkFor(x, pc.cur, k)]), pc.cur))
      else Inserted(s.(nodes := s.nodes[pc.cur := WithChild(x, k, pc.ins.node)]), t, pc.ins)
  {
  }

  lemma {:induction false} RunInsert(c: Config, s: State, v: View, t: nat, pc: Pc)
    requires v in Views(c, s) && t in s.pcs && s.pcs[t] == pc
    requires pc.InsRoot? || pc.InsRootCas? || pc.InsAt? || pc.InsCas? || pc.InsMerge?
    ensures Good(c, Exec(c, s, t))
  {
    ExecInsert(c, s, t, pc);
    if pc.InsRoot? {
      StepInsRoot(c, s, v, t, pc);
    } else if pc.InsRootCas? {
      if s.root != NIL { StepInsRootLose(c, s, v, t, pc); } else { StepInsRootWin(c, s, v, t, pc); }
    } else if pc.InsAt? {
      if NodeAt(s.nodes, pc.ins.node).addr == NodeAt(s.nodes, pc.cur).addr { StepInsSize(c, s, v, t, pc); }
      else { StepInsDescend(c, s, v, t, pc); }
    } else if pc.InsCas? {
      if Child(NodeAt(s.nodes, pc.cur), NodeAt(s.nodes, pc.ins.node).addr) != NIL { StepInsLose(c, s, v, t, pc); }
      else { StepInsWin(c, s, v, t, pc); }
    } else {
      StepInsMerge(c, s, v, t, pc);
    }
  }

  lemma {:induction false} ExecFind(c: Config, s: State, t: nat, pc: Pc)
    requires t in s.pcs && s.pcs[t] == pc
    ensures pc.FindRoot? ==> Exec(c, s, t) == if s.root == NIL then Miss(s, t, pc.search)
            else Goto(s, t, FindAt(pc.search, s.root))
    ensures pc.FindAt? ==>
      var x := NodeAt(s.nodes, pc.cur);
      Exec(c, s, t) ==
      if pc.search.addr == x.addr then Hit(s, t, pc.search, pc.cur)
      else if Child(x, pc.search.addr) == NIL then Miss(s, t, pc.search)
      else Goto(s, t, FindAt(pc.search, Child(x, pc.search.addr)))
    ensures pc.Looked? ==> Exec(c, s, t) == Goto(s, t, Idle)
  {
  }

  lemma {:induction false} RunFind(c: Config, s: State, v: View, t: nat, pc: Pc)
    requires v in Views(c, s) && t in s.pcs && s.pcs[t] == pc && (pc.FindRoot? || pc.FindAt? || pc.Looked?)
    ensures Good(c, Exec(c, s, t))
  {
    ExecFind(c, s, t, pc);
    if pc.FindRoot? {
      StepFindRoot(c, s, v, t, pc);
    } else if pc.Looked? {
      StandGood(c, s, v, t, Idle);
    } else if pc.search.addr == NodeAt(s.nodes, pc.cur).addr {
      StepFindHit(c, s, v, t, pc);
    } else if Child(NodeAt(s.nodes, pc.cur), pc.search.addr) == NIL {
      StepFindMiss(c, s, v, t, pc);
    } else {
      StepFindNext(c, s, v, t, pc);
    }
  }

  lemma {:induction false} ExecOwner(c: Config, s: State, t: nat, pc: Pc)
    requires t in s.pcs && s.pcs[t] == pc
    ensures pc.ShareOr? ==> Exec(c, s, t) == DoShareOr(s, t, pc)
    ensures pc.ClearLoad? ==> Exec(c, s, t) == Goto(s, t, ClearCas(pc.search, pc.cur, NodeAt(s.nodes, pc.cur).mask))
    ensures pc.ClearCas? && pc.search.ForFree? && NodeAt(s.nodes, pc.cur).mask != pc.seen ==>
      Exec(c, s, t) == Goto(s, t, ClearLoad(pc.search, pc.cur))
    ensures pc.ClearCas? && pc.search.ForFree? && NodeAt(s.nodes, pc.cur).mask == pc.seen
            && pc.seen - pc.search.bits != {} ==>
      Exec(c, s, t) == Goto(s.(nodes := WithMask(s.nodes, pc.cur, pc.seen - pc.search.bits)), t, Idle)
    ensures pc.ClearCas? && pc.search.ForFree? && NodeAt(s.nodes, pc.cur).mask == pc.seen
            && pc.seen - pc.search.bits == {} ==>
      Exec(c, s, t)
          == Goto(s.(nodes := WithMask(s.nodes, pc.cur, {}), live := s.live - {pc.search.grant}), t, NewSlot(pc.cur))
    ensures pc.Dec? ==> Exec(c, s, t) == Goto(s.(active := s.active - 1), t, Idle)
  {
  }

  lemma {:induction false} StepDec(c: Config, s: State, v: View, t: nat)
    requires v in Views(c, s) && t in s.pcs && s.pcs[t].Dec?
    ensures Good(c, Goto(s.(active := s.active - 1), t, Idle))
  {
    assert v in Views(c, s.(active := s.active - 1));
    StandGood(c, s.(active := s.active - 1), v, t, Idle);
  }

  lemma {:induction false} RunOwner(c: Config, s: State, v: View, t: nat, pc: Pc)
    requires v in Views(c, s) && t in s.pcs && s.pcs[t] == pc && NoWrap(s, t)
    requires pc.ShareOr? || pc.ClearLoad? || pc.ClearCas? || pc.NewSlot? || pc.Dec?
    ensures Good(c, Exec(c, s, t))
  {
    ExecOwner(c, s, t, pc);
    if pc.ShareOr? {
      StepShareOr(c, s, v, t, pc);
    } else if pc.ClearLoad? {
      StepClearLoad(c, s, v, t, pc);
    } else if pc.Dec? {
      StepDec(c, s, v, t);
    } else if pc.NewSlot? {
      ExecAlloc(c, s, t, pc);
      if s.nodeBump + SLOT_BYTES > c.nodeEnd { StepNewSlotFail(c, s, v, t, pc); } else { StepNewSlot(c, s, v, t, pc); }
    } else {
      RunClearCas(c, s, v, t, pc);
    }
  }

  lemma {:induction false} RunClearCas(c: Config, s: State, v: View, t: nat, pc: Pc)
    requires v in Views(c, s) && t in s.pcs && s.pcs[t] == pc && pc.ClearCas?
    ensures Good(c, Exec(c, s, t))
  {
    assert TreePc(s.root, s.nodes, v.shape, pc);
    ExecOwner(c, s, t, pc);
    if NodeAt(s.nodes, pc.cur).mask != pc.seen {
      StepClearLose(c, s, v, t, pc);
    } else if pc.seen - pc.search.bits != {} {
      StepClearKeep(c, s, v, t, pc);
    } else {
      StepClearLast(c, s, v, t, pc);
    }
  }

  // ---- The step theorem --------------------------------------------------------------------------------

  /** Every legal move that is not a stale pop leads from a state in order to a state in order. */
  lemma {:induction false} StepGood(c: Config, s: State, m: Move)
    requires Good(c, s) && Legal(s, m) && !StalePop(s, m)
    ensures Good(c, Do(c, s, m))
  {
    var v :| v in Views(c, s);
    match m {
      case Start(t, call) => StepStart(c, s, v, t, call);
      case Run(t) => RunGood(c, s, v, t, s.pcs[t]);
    }
  }

  lemma {:induction false} RunGood(c: Config, s: State, v: View, t: nat, pc: Pc)
    requires v in Views(c, s) && t in s.pcs && s.pcs[t] == pc && !pc.Idle? && NoWrap(s, t) && !StalePop(s, Run(t))
    ensures Good(c, Exec(c, s, t))
  {
    if pc.PopHead? || pc.PopNext? || pc.PopCas? {
      RunPop(c, s, v, t, pc);
    } else if pc.PushHead? || pc.PushLink? || pc.PushCas? {
      RunPush(c, s, v, t, pc);
    } else if pc.Bump? || pc.NewNode? || pc.Inc? {
      RunAlloc(c, s, v, t, pc);
    } else if pc.InsRoot? || pc.InsRootCas? || pc.InsAt? || pc.InsCas? || pc.InsMerge? {
      RunInsert(c, s, v, t, pc);
    } else if pc.FindRoot? || pc.FindAt? || pc.Looked? {
      RunFind(c, s, v, t, pc);
    } else {
      RunOwner(c, s, v, t, pc);
    }
  }

  /** With every thread idle and nothing allocated, everything is in order. */
  lemma {:induction false} IdleInOrder(pcs: map<nat, Pc>)
    requires forall t :: t in pcs ==> pcs[t] == Idle
    ensures TreeInv(NIL, map[], Leaf, {}, pcs)
    ensures ListInv(NIL, map[], [], pcs)
    ensures OwnersInv(map[], map[], map[], map[], pcs)
    ensures CallsInv(map[], Leaf, map[], pcs)
  {
    assert forall k :: !HasKey(map[], Leaf, k);
  }

  lemma {:induction false} InitialGood(c: Config, threads: set<nat>)
    requires c.WellFormed()
    ensures Good(c, Initial(c, threads))
  {
    var s, v := Initial(c, threads), View(Leaf, [], map[], map[]);
    IdleInOrder(s.pcs);
    assert NodeBlocks(s.nodes, v.shape, v.ext, v.st, s.live, s.pcs);
    assert v in Views(c, s);
  }

  lemma {:induction false} RunsGood(c: Config, s: State, moves: seq<Move>)
    requires Good(c, s) && LegalRun(c, s, moves) && NoStalePops(c, s, moves)
    ensures Good(c, After(c, s, moves))
    decreases |moves|
  {
    if moves != [] {
      StepGood(c, s, moves[0]);
      RunsGood(c, Do(c, s, moves[0]), moves[1..]);
    }
  }

  // ---- The theorems ----------------------------------------------------------------------------------------

  /** In every interleaving of any number of disciplined threads in which no pop swings the head to
      an outdated next pointer, callers' blocks are aligned, inside the payload, pairwise apart and
      apart from everything on the free list. */
  lemma {:induction false} SafeWithoutStalePops(c: Config, threads: set<nat>, moves: seq<Move>)
    requires c.WellFormed()
    requires LegalRun(c, Initial(c, threads), moves) && NoStalePops(c, Initial(c, threads), moves)
    ensures Safe(c, After(c, Initial(c, threads), moves))
  {
    InitialGood(c, threads);
    RunsGood(c, Initial(c, threads), moves);
    var s := After(c, Initial(c, threads), moves);
    var v :| v in Views(c, s);
    InvSafe(c, s, v);
  }

  /** No popping thread is looking at a slot that some thread has in hand, and what it has read of
      the slot is still what the slot says. */
  ghost predicate Settled(s: State) {
    && (forall t, u {:trigger PopTop(s.pcs[t]), PrivateSlot(s.pcs[u])} ::
          t in s.pcs && u in s.pcs && PrivateSlot(s.pcs[u]) != NIL ==> PopTop(s.pcs[t]) != PrivateSlot(s.pcs[u]))
    && (forall t {:trigger NextOk(s.slots, s.pcs[t])} :: t in s.pcs ==> NextOk(s.slots, s.pcs[t]))
  }

  predicate NextOk(slots: Slots, pc: Pc) {
    pc.PopCas? ==> SlotAt(slots, pc.top).next == pc.next
  }

  function PopTop(pc: Pc): Ptr {
    if pc.PopNext? || pc.PopCas? then pc.top else NIL
  }

  /** Operations that touch no slot, and leave the thread neither popping nor pushing, settle. */
  lemma {:induction false} SettledQuiet(s: State, s1: State, t: nat, to: Pc)
    requires Settled(s) && t in s.pcs && s1.slots == s.slots && s1.pcs == s.pcs
    requires PopTop(to) == NIL && PrivateSlot(to) == NIL && !to.PopCas?
    ensures Settled(Goto(s1, t, to))
  {
  }

  lemma {:induction false} SettledPopHead(s: State, chain: seq<Ptr>, t: nat, pc: Pc)
    requires Settled(s) && ListInv(s.head, s.slots, chain, s.pcs) && t in s.pcs && s.pcs[t] == pc && pc.PopHead?
             && s.head != NIL
    ensures Settled(Goto(s, t, PopNext(pc.want, pc.mask, s.head)))
  {
    assert s.head in chain;
    forall u | u in s.pcs && PrivateSlot(s.pcs[u]) != NIL ensures PrivateSlot(s.pcs[u]) != s.head {
      assert ListPc(s.slots, chain, s.pcs[u]);
    }
  }

  lemma {:induction false} SettledPopNext(s: State, t: nat, pc: Pc)
    requires Settled(s) && t in s.pcs && s.pcs[t] == pc && pc.PopNext?
    ensures Settled(Goto(s, t, PopCas(pc.want, pc.mask, pc.top, SlotAt(s.slots, pc.top).next)))
  {
    assert PopTop(s.pcs[t]) == pc.top;
  }

  lemma {:induction false} SettledPushMove(s: State, t: nat, pc: Pc, to: Pc)
    requires Settled(s) && t in s.pcs && s.pcs[t] == pc && PrivateSlot(to) == PrivateSlot(pc) && PopTop(to) == NIL
             && !to.PopCas?
    ensures Settled(Goto(s, t, to))
  {
  }

  lemma {:induction false} SettledPushLink(s: State, t: nat, pc: Pc)
    requires Settled(s) && t in s.pcs && s.pcs[t] == pc && pc.PushLink? && pc.slot != NIL
    ensures Settled(Goto(s.(slots := Relinked(s.slots, pc.slot, pc.seenTop)), t, PushCas(pc.push, pc.slot, pc.seenTop)))
  {
    var s' := Goto(s.(slots := Relinked(s.slots, pc.slot, pc.seenTop)), t, PushCas(pc.push, pc.slot, pc.seenTop));
    forall x | x in s'.pcs ensures NextOk(s'.slots, s'.pcs[x]) {
      assert NextOk(s.slots, s.pcs[x]);
      assert PopTop(s.pcs[x]) != PrivateSlot(s.pcs[t]);
    }
    SettledPushMove(s, t, pc, PushCas(pc.push, pc.slot, pc.seenTop));
    assert forall x, u :: x in s'.pcs && u in s'.pcs && PrivateSlot(s'.pcs[u]) != NIL ==>
      PopTop(s'.pcs[x]) != PrivateSlot(s'.pcs[u]);
  }

  lemma {:induction false} SettledNewSlot(c: Config, s: State, chain: seq<Ptr>, t: nat, n: Slot)
    requires c.WellFormed() && MetaInv(c, s.nodes, s.slots, s.nodeBump) && ListInv(s.head, s.slots, chain, s.pcs)
    requires Settled(s) && t in s.pcs && s.pcs[t].NewSlot?
    ensures Settled(Goto(s.(slots := s.slots[s.nodeBump := n], nodeBump := s.nodeBump + SLOT_BYTES), t,
            PushHead(Release, s.nodeBump)))
  {
    assert s.nodeBump in s.slots ==> RecordIn(c, s.nodeBump, SLOT_BYTES, s.nodeBump);
    forall x | x in s.pcs ensures PopTop(s.pcs[x]) != s.nodeBump && NextOk(s.slots[s.nodeBump := n], s.pcs[x]) {
      assert ListPc(s.slots, chain, s.pcs[x]) && NextOk(s.slots, s.pcs[x]);
    }
  }

  lemma {:induction false} SettledRun(c: Config, s: State, v: View, t: nat, pc: Pc)
    requires v in Views(c, s) && Settled(s) && t in s.pcs && s.pcs[t] == pc && !pc.Idle? && NoWrap(s, t)
             && !MisfitPop(s, Run(t))
    ensures Settled(Exec(c, s, t))
  {
    if pc.PopHead? || pc.PopNext? || pc.PopCas? {
      ExecPop(c, s, t, pc);
      if pc.PopHead? && s.head != NIL {
        SettledPopHead(s, v.chain, t, pc);
      } else if pc.PopHead? {
        SettledQuiet(s, s, t, Bump(pc.want, pc.mask));
      } else if pc.PopNext? {
        SettledPopNext(s, t, pc);
      } else if s.head != pc.top {
        SettledQuiet(s, s, t, PopHead(pc.want, pc.mask));
      } else {
        SettledQuiet(s, s.(head := pc.next), t, Taken(s.slots, pc, pc.top));
      }
    } else if pc.PushHead? || pc.PushLink? || pc.PushCas? {
      SettledPush(c, s, v, t, pc);
    } else if pc.NewSlot? && s.nodeBump + SLOT_BYTES <= c.nodeEnd {
      ExecAlloc(c, s, t, pc);
      SettledNewSlot(c, s, v.chain, t, Slot(NodeAt(s.nodes, pc.cur).addr, NodeAt(s.nodes, pc.cur).size, NIL));
    } else {
      SettledOthers(c, s, t, pc);
    }
  }

  lemma {:induction false} SettledPush(c: Config, s: State, v: View, t: nat, pc: Pc)
    requires v in Views(c, s) && Settled(s) && t in s.pcs && s.pcs[t] == pc
             && (pc.PushHead? || pc.PushLink? || pc.PushCas?)
    ensures Settled(Exec(c, s, t))
  {
    assert ListPc(s.slots, v.chain, pc);
    ExecPush(c, s, t, pc);
    if pc.PushHead? {
      SettledPushMove(s, t, pc, PushLink(pc.push, pc.slot, s.head));
    } else if pc.PushLink? {
      SettledPushLink(s, t, pc);
    } else if s.head != pc.seenTop {
      SettledPushMove(s, t, pc, PushHead(pc.push, pc.slot));
    } else {
      SettledQuiet(s, s.(head := pc.slot), t, AfterPush(pc.push));
    }
  }

  lemma {:induction false} SettledOthers(c: Config, s: State, t: nat, pc: Pc)
    requires c.WellFormed() && Settled(s) && t in s.pcs && s.pcs[t] == pc && !pc.Idle? && NoWrap(s, t)
    requires !pc.PopHead? && !pc.PopNext? && !pc.PopCas? && !pc.PushHead? && !pc.PushLink? && !pc.PushCas?
    requires pc.NewSlot? ==> s.nodeBump + SLOT_BYTES > c.nodeEnd
    ensures Settled(Exec(c, s, t))
  {
    var s1, to := ExecQuiet(c, s, t, pc);
    SettledQuiet(s, s1, t, to);
  }

  /** Everything but popping, pushing and making a slot leaves slots alone. */
  lemma {:induction false} ExecQuiet(c: Config, s: State, t: nat, pc: Pc) returns (s1: State, to: Pc)
    requires c.WellFormed() && t in s.pcs && s.pcs[t] == pc && !pc.Idle? && NoWrap(s, t)
    requires !pc.PopHead? && !pc.PopNext? && !pc.PopCas? && !pc.PushHead? && !pc.PushLink? && !pc.PushCas?
    requires pc.NewSlot? ==> s.nodeBump + SLOT_BYTES > c.nodeEnd
    ensures Exec(c, s, t) == Goto(s1, t, to)
    ensures s1.slots == s.slots && s1.pcs == s.pcs && PopTop(to) == NIL && PrivateSlot(to) == NIL && !to.PopCas?
  {
    if pc.InsRoot? || pc.InsRootCas? || pc.InsAt? || pc.InsCas? || pc.InsMerge? {
      s1, to := InsertQuiet(c, s, t, pc);
    } else {
      s1, to := OtherQuiet(c, s, t, pc);
    }
  }

  lemma {:induction false} InsertQuiet(c: Config, s: State, t: nat, pc: Pc) returns (s1: State, to: Pc)
    requires t in s.pcs && s.pcs[t] == pc
    requires pc.InsRoot? || pc.InsRootCas? || pc.InsAt? || pc.InsCas? || pc.InsMerge?
    ensures Exec(c, s, t) == Goto(s1, t, to)
    ensures s1.slots == s.slots && s1.pcs == s.pcs && PopTop(to) == NIL && PrivateSlot(to) == NIL && !to.PopCas?
  {
    s1, to := Exec(c, s, t).(pcs := s.pcs), Exec(c, s, t).pcs[t];
    ExecInsert(c, s, t, pc);
  }

  lemma {:induction false} OtherQuiet(c: Config, s: State, t: nat, pc: Pc) returns (s1: State, to: Pc)
    requires c.WellFormed() && t in s.pcs && s.pcs[t] == pc && NoWrap(s, t)
    requires pc.NewSlot? ==> s.nodeBump + SLOT_BYTES > c.nodeEnd
    requires pc.Bump? || pc.NewNode? || pc.Inc? || pc.NewSlot? || pc.FindRoot? || pc.FindAt? || pc.Looked?
             || pc.ShareOr? || pc.ClearLoad? || pc.ClearCas? || pc.Dec?
    ensures Exec(c, s, t) == Goto(s1, t, to)
    ensures s1.slots == s.slots && s1.pcs == s.pcs && PopTop(to) == NIL && PrivateSlot(to) == NIL && !to.PopCas?
  {
    if pc.Bump? || pc.NewNode? || pc.Inc? || pc.NewSlot? {
      AllocQuiet(c, s, t, pc);
    } else if pc.FindRoot? || pc.FindAt? || pc.Looked? {
      FindQuiet(c, s, t, pc);
    } else {
      OwnerQuiet(c, s, t, pc);
    }
    s1, to := QuietIsAMove(s, Exec(c, s, t), t);
  }

  lemma {:induction false} QuietIsAMove(s: State, r: State, t: nat) returns (s1: State, to: Pc)
    requires Quiet(s, r, t)
    ensures r == Goto(s1, t, to) && s1.slots == s.slots && s1.pcs == s.pcs
    ensures PopTop(to) == NIL && PrivateSlot(to) == NIL && !to.PopCas?
  {
    s1, to := r.(pcs := s.pcs), r.pcs[t];
  }

  /** The state after a move of `t` differs from `s` in the moving thread's pc and not in the slots. */
  ghost predicate Quiet(s: State, r: State, t: nat) {
    && t in r.pcs && r.pcs == s.pcs[t := r.pcs[t]] && r.slots == s.slots
    && PopTop(r.pcs[t]) == NIL && PrivateSlot(r.pcs[t]) == NIL && !r.pcs[t].PopCas?
  }

  lemma {:induction false} AllocQuiet(c: Config, s: State, t: nat, pc: Pc)
    requires c.WellFormed() && t in s.pcs && s.pcs[t] == pc && NoWrap(s, t)
    requires pc.Bump? || pc.NewNode? || pc.Inc? || (pc.NewSlot? && s.nodeBump + SLOT_BYTES > c.nodeEnd)
    ensures Quiet(s, Exec(c, s, t), t)
  {
    ExecAlloc(c, s, t, pc);
  }

  lemma {:induction false} FindQuiet(c: Config, s: State, t: nat, pc: Pc)
    requires t in s.pcs && s.pcs[t] == pc && (pc.FindRoot? || pc.FindAt? || pc.Looked?)
    ensures Quiet(s, Exec(c, s, t), t)
  {
    ExecFind(c, s, t, pc);
  }

  lemma {:induction false} OwnerQuiet(c: Config, s: State, t: nat, pc: Pc)
    requires t in s.pcs && s.pcs[t] == pc && (pc.ShareOr? || pc.ClearLoad? || pc.ClearCas? || pc.Dec?)
    ensures Quiet(s, Exec(c, s, t), t)
  {
    ExecOwner(c, s, t, pc);
  }

  lemma {:induction false} SettledStep(c: Config, s: State, m: Move)
    requires Good(c, s) && Settled(s) && Legal(s, m) && !MisfitPop(s, m)
    ensures Settled(Do(c, s, m)) && !StalePop(s, m)
  {
    var v :| v in Views(c, s);
    assert NextOk(s.slots, s.pcs[m.thread]);
    match m {
      case Start(t, call) =>
        var s1, to := BeginQuiet(s, t, call);
        SettledQuiet(s, s1, t, to);
      case Run(t) => SettledRun(c, s, v, t, s.pcs[t]);
    }
  }

  lemma {:induction false} BeginQuiet(s: State, t: nat, call: Call) returns (s1: State, to: Pc)
    requires t in s.pcs
    ensures Begin(s, t, call) == Goto(s1, t, to)
    ensures s1.slots == s.slots && s1.pcs == s.pcs && PopTop(to) == NIL && PrivateSlot(to) == NIL && !to.PopCas?
  {
    s1, to := Begin(s, t, call).(pcs := s.pcs), Begin(s, t, call).pcs[t];
  }

  /** Where every slot that a pop takes is large enough, no pop is ever stale. */
  lemma {:induction false} FittingRunsAreFresh(c: Config, s: State, moves: seq<Move>)
    requires Good(c, s) && Settled(s) && LegalRun(c, s, moves) && NoMisfitPops(c, s, moves)
    ensures NoStalePops(c, s, moves)
    decreases |moves|
  {
    if moves != [] {
      SettledStep(c, s, moves[0]);
      StepGood(c, s, moves[0]);
      FittingRunsAreFresh(c, Do(c, s, moves[0]), moves[1..]);
    }
  }

  /** In every interleaving of any number of disciplined threads in which no request exceeds a freed
      slot that it pops, callers' blocks are aligned, inside the payload, pairwise apart and apart
      from everything on the free list. */
  lemma {:induction false} SafeWhenSlotsFit(c: Config, threads: set<nat>, moves: seq<Move>)
    requires c.WellFormed()
    requires LegalRun(c, Initial(c, threads), moves) && NoMisfitPops(c, Initial(c, threads), moves)
    ensures Safe(c, After(c, Initial(c, threads), moves))
  {
    InitialGood(c, threads);
    FittingRunsAreFresh(c, Initial(c, threads), moves);
    SafeWithoutStalePops(c, threads, moves);
  }
}
