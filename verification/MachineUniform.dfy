/** Sizes stay between the smallest and the largest request.  Callers that always ask for the same aligned
    size are safe: no slot they pop is too small. */
module MachineUniform {
  import opened Words
  import opened Layout
  import opened SearchTree
  import opened FreeStack
  import opened Machine
  import opened MachineInvariant
  import opened MachineMoves
  import opened MachineSafety

  predicate Between(lo: nat, x: nat, hi: nat) {
    lo <= x <= hi
  }

  predicate SizedPc(pc: Pc, lo: nat, hi: nat) {
    match pc
    case PopHead(want, _) => Between(lo, want, hi)
    case PopNext(want, _, _) => Between(lo, want, hi)
    case PopCas(want, _, _, _) => Between(lo, want, hi)
    case Bump(want, _) => Between(lo, want, hi)
    case NewNode(_, _, _, size) => Between(lo, size, hi)
    case PushHead(push, _) => push.Repush? ==> Between(lo, push.want, hi)
    case PushLink(push, _, _) => push.Repush? ==> Between(lo, push.want, hi)
    case PushCas(push, _, _) => push.Repush? ==> Between(lo, push.want, hi)
    case _ => true
  }

  ghost predicate NodesSized(nodes: Nodes, lo: nat, hi: nat) {
    forall p :: p in nodes ==> Between(lo, nodes[p].size, hi)
  }

  ghost predicate SlotsSized(slots: Slots, lo: nat, hi: nat) {
    forall p :: p in slots ==> Between(lo, slots[p].size, hi)
  }

  /** Every record and every request in progress has a size between `lo` and `hi`. */
  ghost predicate Sized(s: State, lo: nat, hi: nat) {
    && NodesSized(s.nodes, lo, hi)
    && SlotsSized(s.slots, lo, hi)
    && forall t {:trigger SizedPc(s.pcs[t], lo, hi)} :: t in s.pcs ==> SizedPc(s.pcs[t], lo, hi)
  }

  /** Every Alloc in the run asks for between `lo` and `hi` bytes once aligned. */
  predicate AskWithin(moves: seq<Move>, lo: nat, hi: nat) {
    forall i :: 0 <= i < |moves| ==> AsksWithin(moves[i], lo, hi)
  }

  predicate AsksWithin(m: Move, lo: nat, hi: nat) {
    m.Start? && m.call.CallAlloc? ==> Between(lo, AlignUp(m.call.size, 8), hi)
  }

  lemma {:induction false} SizedMove(s: State, s1: State, t: nat, to: Pc, lo: nat, hi: nat)
    requires Sized(s, lo, hi) && t in s.pcs && s1.pcs == s.pcs && NodesSized(s1.nodes, lo, hi)
             && SlotsSized(s1.slots, lo, hi) && SizedPc(to, lo, hi)
    ensures Sized(Goto(s1, t, to), lo, hi)
  {
  }

  lemma {:induction false} SizedPop(c: Config, s: State, v: View, t: nat, pc: Pc, lo: nat, hi: nat)
    requires v in Views(c, s) && Sized(s, lo, hi) && t in s.pcs && s.pcs[t] == pc
             && (pc.PopHead? || pc.PopNext? || pc.PopCas?)
    ensures Sized(Exec(c, s, t), lo, hi) && (lo == hi ==> !MisfitPop(s, Run(t)))
  {
    assert SizedPc(pc, lo, hi) && ListPc(s.slots, v.chain, pc);
    ExecPop(c, s, t, pc);
    if pc.PopHead? {
      SizedMove(s, s, t, if s.head == NIL then Bump(pc.want, pc.mask) else PopNext(pc.want, pc.mask, s.head), lo, hi);
    } else if pc.PopNext? {
      SizedMove(s, s, t, PopCas(pc.want, pc.mask, pc.top, SlotAt(s.slots, pc.top).next), lo, hi);
    } else if s.head != pc.top {
      SizedMove(s, s, t, PopHead(pc.want, pc.mask), lo, hi);
    } else {
      SizedMove(s, s.(head := pc.next), t, Taken(s.slots, pc, pc.top), lo, hi);
    }
  }

  lemma {:induction false} SizedPush(c: Config, s: State, v: View, t: nat, pc: Pc, lo: nat, hi: nat)
    requires v in Views(c, s) && Sized(s, lo, hi) && t in s.pcs && s.pcs[t] == pc
             && (pc.PushHead? || pc.PushLink? || pc.PushCas?)
    ensures Sized(Exec(c, s, t), lo, hi)
  {
    assert SizedPc(pc, lo, hi) && ListPc(s.slots, v.chain, pc);
    ExecPush(c, s, t, pc);
    if pc.PushHead? {
      SizedMove(s, s, t, PushLink(pc.push, pc.slot, s.head), lo, hi);
    } else if pc.PushLink? {
      SizedMove(s, s.(slots := Relinked(s.slots, pc.slot, pc.seenTop)), t, PushCas(pc.push, pc.slot, pc.seenTop), lo,
          hi);
    } else if s.head != pc.seenTop {
      SizedMove(s, s, t, PushHead(pc.push, pc.slot), lo, hi);
    } else {
      SizedMove(s, s.(head := pc.slot), t, AfterPush(pc.push), lo, hi);
    }
  }

  lemma {:induction false} SizedNewSlot(c: Config, s: State, v: View, t: nat, pc: Pc, lo: nat, hi: nat)
    requires v in Views(c, s) && Sized(s, lo, hi) && t in s.pcs && s.pcs[t] == pc && pc.NewSlot? && NoWrap(s, t)
    ensures Sized(Exec(c, s, t), lo, hi)
  {
    assert TreePc(s.root, s.nodes, v.shape, pc);
    ExecAlloc(c, s, t, pc);
    var n := NodeAt(s.nodes, pc.cur);
    if s.nodeBump + SLOT_BYTES > c.nodeEnd {
      SizedMove(s, s.(nodeBump := s.nodeBump + SLOT_BYTES), t, Idle, lo, hi);
    } else {
      SizedMove(s, s.(slots := s.slots[s.nodeBump := Slot(n.addr, n.size, NIL)], nodeBump := s.nodeBump + SLOT_BYTES),
                  t, PushHead(Release, s.nodeBump), lo, hi);
    }
  }

  lemma {:induction false} SizedAlloc(c: Config, s: State, v: View, t: nat, pc: Pc, lo: nat, hi: nat)
    requires v in Views(c, s) && Sized(s, lo, hi) && t in s.pcs && s.pcs[t] == pc
             && (pc.Bump? || pc.NewNode? || pc.Inc?) && NoWrap(s, t)
    ensures Sized(Exec(c, s, t), lo, hi)
  {
    assert SizedPc(pc, lo, hi);
    ExecAlloc(c, s, t, pc);
    if pc.Inc? {
      SizedMove(s, DoInc(s, t, pc).(pcs := s.pcs), t, Idle, lo, hi);
    } else if pc.Bump? {
      SizedMove(s, s.(bump := s.bump + pc.want), t,
                  if s.bump + pc.want > c.payloadEnd then Idle else NewNode(pc.want, pc.mask, s.bump, pc.want), lo, hi);
    } else if s.nodeBump + NODE_BYTES > c.nodeEnd {
      SizedMove(s, s.(nodeBump := s.nodeBump + NODE_BYTES), t, Idle, lo, hi);
    } else {
      SizedMove(s, s.(nodes := s.nodes[s.nodeBump := Node(pc.addr, pc.size, NormalizeMask(pc.mask), NIL, NIL)],
                        nodeBump := s.nodeBump + NODE_BYTES), t, InsRoot(Insertion(pc.want, s.nodeBump, [])), lo, hi);
    }
  }

  /** Insertions read and write sizes of records that are there. */
  lemma {:induction false} SizedInsert(c: Config, s: State, v: View, t: nat, pc: Pc, lo: nat, hi: nat)
    requires v in Views(c, s) && Sized(s, lo, hi) && t in s.pcs && s.pcs[t] == pc
    requires pc.InsRoot? || pc.InsRootCas? || pc.InsAt? || pc.InsCas? || pc.InsMerge?
    ensures Sized(Exec(c, s, t), lo, hi)
  {
    assert TreePc(s.root, s.nodes, v.shape, pc);
    if pc.InsAt? { OnPathIn(s.nodes, v.shape, s.nodes[pc.ins.node].addr, pc.cur); }
    InsertKeepsSizes(c, s, t, pc, lo, hi);
    var s1, to := InsertQuiet(c, s, t, pc);
    assert Exec(c, s, t) == Goto(s1, t, to);
    SizedMove(s, s1, t, to, lo, hi);
  }

  lemma {:induction false} InsertKeepsSizes(c: Config, s: State, t: nat, pc: Pc, lo: nat, hi: nat)
    requires NodesSized(s.nodes, lo, hi) && t in s.pcs && s.pcs[t] == pc
    requires pc.InsRoot? || pc.InsRootCas? || pc.InsAt? || pc.InsCas? || pc.InsMerge?
    requires pc.ins.node in s.nodes && (pc.InsAt? || pc.InsCas? || pc.InsMerge? ==> pc.cur in s.nodes)
    ensures NodesSized(Exec(c, s, t).nodes, lo, hi) && SizedPc(Exec(c, s, t).pcs[t], lo, hi)
  {
    ExecInsert(c, s, t, pc);
  }

  lemma {:induction false} SizedRest(c: Config, s: State, v: View, t: nat, pc: Pc, lo: nat, hi: nat)
    requires v in Views(c, s) && Sized(s, lo, hi) && t in s.pcs && s.pcs[t] == pc && NoWrap(s, t)
    requires pc.FindRoot? || pc.FindAt? || pc.Looked? || pc.ShareOr? || pc.ClearLoad? || pc.ClearCas? || pc.Dec?
    ensures Sized(Exec(c, s, t), lo, hi)
  {
    assert TreePc(s.root, s.nodes, v.shape, pc);
    RestKeepsSizes(c, s, t, pc, lo, hi);
    var s1, to := OtherQuiet(c, s, t, pc);
    assert Exec(c, s, t) == Goto(s1, t, to);
    SizedMove(s, s1, t, to, lo, hi);
  }

  lemma {:induction false} RestKeepsSizes(c: Config, s: State, t: nat, pc: Pc, lo: nat, hi: nat)
    requires NodesSized(s.nodes, lo, hi) && t in s.pcs && s.pcs[t] == pc
    requires pc.FindRoot? || pc.FindAt? || pc.Looked? || pc.ShareOr? || pc.ClearLoad? || pc.ClearCas? || pc.Dec?
    requires pc.ShareOr? || pc.ClearCas? ==> pc.cur in s.nodes && (pc.ClearCas? ==> pc.search.ForFree?)
    ensures NodesSized(Exec(c, s, t).nodes, lo, hi) && SizedPc(Exec(c, s, t).pcs[t], lo, hi)
  {
    if pc.FindRoot? || pc.FindAt? || pc.Looked? { ExecFind(c, s, t, pc); } else { ExecOwner(c, s, t, pc); }
  }

  lemma {:induction false} SizedStart(s: State, t: nat, call: Call, lo: nat, hi: nat)
    requires Sized(s, lo, hi) && t in s.pcs && AsksWithin(Start(t, call), lo, hi)
    ensures Sized(Begin(s, t, call), lo, hi)
  {
    SizedMove(s, Begin(s, t, call).(pcs := s.pcs), t, Begin(s, t, call).pcs[t], lo, hi);
  }

  lemma {:induction false} SizedStep(c: Config, s: State, m: Move, lo: nat, hi: nat)
    requires Good(c, s) && Sized(s, lo, hi) && Legal(s, m) && AsksWithin(m, lo, hi)
    ensures Sized(Do(c, s, m), lo, hi) && (lo == hi ==> !MisfitPop(s, m))
  {
    match m {
      case Start(t, call) => SizedStart(s, t, call, lo, hi);
      case Run(t) =>
        var v :| v in Views(c, s);
        SizedRun(c, s, v, t, s.pcs[t], lo, hi);
    }
  }

  lemma {:induction false} SizedRun(c: Config, s: State, v: View, t: nat, pc: Pc, lo: nat, hi: nat)
    requires v in Views(c, s) && Sized(s, lo, hi) && t in s.pcs && s.pcs[t] == pc && !pc.Idle? && NoWrap(s, t)
    ensures Sized(Exec(c, s, t), lo, hi) && (lo == hi ==> !MisfitPop(s, Run(t)))
  {
    if pc.PopHead? || pc.PopNext? || pc.PopCas? {
      SizedPop(c, s, v, t, pc, lo, hi);
    } else if pc.PushHead? || pc.PushLink? || pc.PushCas? {
      SizedPush(c, s, v, t, pc, lo, hi);
    } else if pc.NewSlot? {
      SizedNewSlot(c, s, v, t, pc, lo, hi);
    } else if pc.Bump? || pc.NewNode? || pc.Inc? {
      SizedAlloc(c, s, v, t, pc, lo, hi);
    } else if pc.InsRoot? || pc.InsRootCas? || pc.InsAt? || pc.InsCas? || pc.InsMerge? {
      SizedInsert(c, s, v, t, pc, lo, hi);
    } else {
      SizedRest(c, s, v, t, pc, lo, hi);
    }
  }

  lemma {:induction false} UniformRunsFit(c: Config, s: State, moves: seq<Move>, w: nat)
    requires Good(c, s) && Settled(s) && Sized(s, w, w) && LegalRun(c, s, moves) && AskWithin(moves, w, w)
    ensures NoMisfitPops(c, s, moves)
    decreases |moves|
  {
    if moves != [] {
      SizedStep(c, s, moves[0], w, w);
      SettledStep(c, s, moves[0]);
      StepGood(c, s, moves[0]);
      UniformRunsFit(c, Do(c, s, moves[0]), moves[1..], w);
    }
  }

  /** Any number of disciplined threads that all ask for the same aligned size are safe in every interleaving. */
  lemma {:induction false} SafeWithOneSize(c: Config, threads: set<nat>, moves: seq<Move>, w: nat)
    requires c.WellFormed() && LegalRun(c, Initial(c, threads), moves) && AskWithin(moves, w, w)
    ensures Safe(c, After(c, Initial(c, threads), moves))
  {
    InitialGood(c, threads);
    UniformRunsFit(c, Initial(c, threads), moves, w);
    SafeWhenSlotsFit(c, threads, moves);
  }
}
