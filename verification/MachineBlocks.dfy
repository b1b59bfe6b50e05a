/** No block is lost while metadata lasts: it is with its callers, on the free list, or in a thread's hands. */
module MachineBlocks {
  import opened Words
  import opened Layout
  import opened SearchTree
  import opened FreeStack
  import opened Machine
  import opened MachineInvariant
  import opened MachineMoves
  import opened MachineCalls
  import opened MachineOwners
  import opened MachineSafety
  import opened MachineMasks

  ghost predicate WithCallers(live: map<nat, Grant>, k: nat) {
    exists g :: g in live && live[g].addr == k
  }

  ghost predicate OnList(slots: Slots, chain: seq<Ptr>, k: nat) {
    exists p :: p in chain && p in slots && slots[p].addr == k
  }

  /** Thread `t` has block `k` in hand. */
  ghost predicate HandHas(nodes: Nodes, slots: Slots, pcs: map<nat, Pc>, t: nat, k: nat) {
    t in pcs && Owned(nodes, slots, pcs[t]) == k && k != 0
  }

  ghost predicate Kept(s: State, chain: seq<Ptr>, k: nat) {
    WithCallers(s.live, k) || OnList(s.slots, chain, k) || exists t :: HandHas(s.nodes, s.slots, s.pcs, t, k)
  }

  /** Every block that was ever handed out is somewhere. */
  ghost predicate Complete(s: State) {
    exists chain :: Chain(s.slots, s.head, chain) && forall k :: k in s.inserted ==> Kept(s, chain, k)
  }

  /** There is no room for the record that this move makes. */
  predicate LacksMetadata(c: Config, s: State, m: Move)
    requires m.thread in s.pcs
  {
    m.Run? && match s.pcs[m.thread]
              case NewNode(_, _, _, _) => s.nodeBump + NODE_BYTES > c.nodeEnd
              case NewSlot(_) => s.nodeBump + SLOT_BYTES > c.nodeEnd
              case _ => false
  }

  ghost predicate MetadataLasts(c: Config, s: State, moves: seq<Move>)
    requires LegalRun(c, s, moves)
    decreases |moves|
  {
    moves != [] ==> !LacksMetadata(c, s, moves[0]) && MetadataLasts(c, Do(c, s, moves[0]), moves[1..])
  }

  // ---- Each move -----------------------------------------------------------------------------------------

  /** Records keep their addresses. */
  ghost predicate AddrsKept(s: State, s1: State) {
    && (forall p :: p in s.nodes ==> p in s1.nodes && s1.nodes[p].addr == s.nodes[p].addr)
    && (forall p :: p in s.slots ==> p in s1.slots && s1.slots[p].addr == s.slots[p].addr)
  }

  /** What thread `u` has in hand it still has. */
  lemma {:induction false} HandStays(c: Config, s: State, v: View, s1: State, u: nat)
    requires v in Views(c, s) && u in s.pcs && AddrsKept(s, s1)
    ensures Owned(s1.nodes, s1.slots, s.pcs[u]) == Owned(s.nodes, s.slots, s.pcs[u])
  {
    assert TreePc(s.root, s.nodes, v.shape, s.pcs[u]) && ListPc(s.slots, v.chain, s.pcs[u]);
  }

  /** Where the blocks of the mover go: its block is still in hand, on the list or with callers; whatever leaves
      the list or a caller goes to its hands; and a block that is new in the tree is in its hands. */
  ghost predicate Passes(s: State, s1: State, chain: seq<Ptr>, chain1: seq<Ptr>, t: nat) {
    t in s.pcs && t in s1.pcs &&
    var mine, mine1 := Owned(s.nodes, s.slots, s.pcs[t]), Owned(s1.nodes, s1.slots, s1.pcs[t]);
    && (mine != 0 ==> mine1 == mine || OnList(s1.slots, chain1, mine) || WithCallers(s1.live, mine))
    && (forall k :: WithCallers(s.live, k) ==> WithCallers(s1.live, k) || mine1 == k)
    && (forall k :: OnList(s.slots, chain, k) ==> OnList(s1.slots, chain1, k) || mine1 == k)
    && (forall k :: k in s1.inserted ==> k in s.inserted || mine1 == k)
  }

  lemma {:induction false} CompleteMove(c: Config, s: State, v: View, s1: State, chain1: seq<Ptr>, t: nat)
    requires v in Views(c, s) && Complete(s) && t in s.pcs && t in s1.pcs && s1.pcs == s.pcs[t := s1.pcs[t]]
    requires Chain(s1.slots, s1.head, chain1) && AddrsKept(s, s1) && Passes(s, s1, v.chain, chain1, t)
    requires forall k :: k in s1.inserted ==> k != 0
    ensures Complete(s1)
  {
    var chain :| Chain(s.slots, s.head, chain) && forall k :: k in s.inserted ==> Kept(s, chain, k);
    ChainUnique(s.slots, s.head, chain, v.chain);
    forall k | k in s1.inserted ensures Kept(s1, chain1, k) {
      var mine1 := Owned(s1.nodes, s1.slots, s1.pcs[t]);
      if mine1 == k {
        assert HandHas(s1.nodes, s1.slots, s1.pcs, t, k);
      } else {
        assert Kept(s, chain, k);
        if u :| HandHas(s.nodes, s.slots, s.pcs, u, k) {
          if u != t {
            HandStays(c, s, v, s1, u);
            assert HandHas(s1.nodes, s1.slots, s1.pcs, u, k);
          }
        }
      }
    }
  }

  /** Blocks in the tree have addresses in the payload. */
  lemma {:induction false} BlockInPayload(c: Config, s: State, k: nat)
    requires Good(c, s) && k in s.inserted
    ensures c.WellFormed() && c.payloadBase <= k
  {
    var v :| v in Views(c, s);
    assert HasKey(s.nodes, v.shape, k);
    var p :| p in Ptrs(v.shape) && p in s.nodes && s.nodes[p].addr == k;
    assert NodeOk(s.nodes[p], v.ext, v.st, s.live, s.pcs);
  }

  /** A move of thread `t` that passes its blocks on. */
  ghost predicate Hands(s: State, s1: State, chain: seq<Ptr>, chain1: seq<Ptr>, t: nat) {
    && t in s.pcs && t in s1.pcs && s1.pcs == s.pcs[t := s1.pcs[t]]
    && Chain(s1.slots, s1.head, chain1) && AddrsKept(s, s1) && Passes(s, s1, chain, chain1, t)
  }

  lemma {:induction false} HandsPop(c: Config, s: State, chain: seq<Ptr>, t: nat, pc: Pc) returns (chain1: seq<Ptr>)
    requires Chain(s.slots, s.head, chain) && t in s.pcs && s.pcs[t] == pc && !StalePop(s, Run(t))
    requires pc.PopHead? || pc.PopNext? || (pc.PopCas? && pc.top != NIL)
    ensures Hands(s, Exec(c, s, t), chain, chain1, t)
  {
    ExecPop(c, s, t, pc);
    chain1 := chain;
    if pc.PopCas? && s.head == pc.top {
      chain1 := chain[1..];
      assert chain == [pc.top] + chain1;
    }
  }

  lemma {:induction false} HandsPush(c: Config, s: State, chain: seq<Ptr>, t: nat, pc: Pc) returns (chain1: seq<Ptr>)
    requires Chain(s.slots, s.head, chain) && t in s.pcs && s.pcs[t] == pc && ListPc(s.slots, chain, pc)
    requires pc.PushHead? || pc.PushLink? || pc.PushCas?
    ensures Hands(s, Exec(c, s, t), chain, chain1, t)
  {
    ExecPush(c, s, t, pc);
    chain1 := chain;
    if pc.PushLink? {
      ChainFrame(s.slots, Relinked(s.slots, pc.slot, pc.seenTop), s.head, chain);
    } else if pc.PushCas? && s.head == pc.seenTop {
      chain1 := [pc.slot] + chain;
      assert chain1[1..] == chain;
    }
  }

  lemma {:induction false} HandsAlloc(c: Config, s: State, chain: seq<Ptr>, t: nat, pc: Pc)
    requires c.WellFormed() && Chain(s.slots, s.head, chain) && t in s.pcs && s.pcs[t] == pc && NoWrap(s, t)
    requires (pc.Bump? || pc.NewNode?) && s.nodeBump !in s.nodes && !LacksMetadata(c, s, Run(t))
    ensures Hands(s, Exec(c, s, t), chain, chain, t)
  {
    if pc.Bump? { ExecBump(c, s, t, pc); } else { ExecNewNode(c, s, t, pc); }
  }

  lemma {:induction false} HandsNewSlot(c: Config, s: State, chain: seq<Ptr>, t: nat, pc: Pc)
    requires c.WellFormed() && Chain(s.slots, s.head, chain) && t in s.pcs && s.pcs[t] == pc && NoWrap(s, t)
    requires pc.NewSlot? && s.nodeBump !in s.slots && !LacksMetadata(c, s, Run(t))
    ensures Hands(s, Exec(c, s, t), chain, chain, t)
  {
    ExecNewSlot(c, s, t, pc);
    ChainFrame(s.slots, Exec(c, s, t).slots, s.head, chain);
  }

  lemma {:induction false} HandsInc(s: State, chain: seq<Ptr>, t: nat, pc: Pc)
    requires Chain(s.slots, s.head, chain) && t in s.pcs && s.pcs[t] == pc && pc.Inc? && s.nextGrant !in s.live
    ensures Hands(s, DoInc(s, t, pc), chain, chain, t)
  {
    var s1 := DoInc(s, t, pc);
    assert s1.live[s.nextGrant].addr == pc.addr;
    forall k | WithCallers(s.live, k) ensures WithCallers(s1.live, k) {
      var g :| g in s.live && s.live[g].addr == k;
      assert g in s1.live && s1.live[g].addr == k;
    }
  }

  lemma {:induction false} InsertAddrs(c: Config, s: State, t: nat, pc: Pc)
    requires t in s.pcs && s.pcs[t] == pc
    requires pc.InsRoot? || pc.InsRootCas? || pc.InsAt? || pc.InsCas? || pc.InsMerge?
    requires pc.ins.node in s.nodes && (pc.InsAt? || pc.InsCas? || pc.InsMerge? ==> pc.cur in s.nodes)
    ensures var s1 := Exec(c, s, t);
            && AddrsKept(s, s1) && s1.slots == s.slots && s1.head == s.head && s1.live == s.live
            && t in s1.pcs && s1.pcs == s.pcs[t := s1.pcs[t]]
  {
    ExecInsert(c, s, t, pc);
  }

  lemma {:induction false} InsertOwns(c: Config, s: State, t: nat, pc: Pc)
    requires t in s.pcs && s.pcs[t] == pc
    requires pc.InsRoot? || pc.InsRootCas? || pc.InsAt? || pc.InsCas? || pc.InsMerge?
    requires pc.ins.node in s.nodes && (pc.InsAt? || pc.InsCas? || pc.InsMerge? ==> pc.cur in s.nodes)
    ensures var s1, k := Exec(c, s, t), s.nodes[pc.ins.node].addr;
            && t in s1.pcs && Owned(s1.nodes, s1.slots, s1.pcs[t]) == k
            && forall j :: j in s1.inserted ==> j in s.inserted || j == k
  {
    ExecInsert(c, s, t, pc);
  }

  lemma {:induction false} HandsInsert(c: Config, s: State, chain: seq<Ptr>, t: nat, pc: Pc)
    requires Chain(s.slots, s.head, chain) && t in s.pcs && s.pcs[t] == pc
    requires pc.InsRoot? || pc.InsRootCas? || pc.InsAt? || pc.InsCas? || pc.InsMerge?
    requires pc.ins.node in s.nodes && (pc.InsAt? || pc.InsCas? || pc.InsMerge? ==> pc.cur in s.nodes)
    ensures Hands(s, Exec(c, s, t), chain, chain, t)
  {
    InsertAddrs(c, s, t, pc);
    InsertOwns(c, s, t, pc);
  }

  /** Grants stay where they are, whoever holds their bits. */
  lemma {:induction false} SameCallers(live: map<nat, Grant>, live1: map<nat, Grant>)
    requires forall g :: g in live ==> g in live1 && live1[g].addr == live[g].addr
    ensures forall k :: WithCallers(live, k) ==> WithCallers(live1, k)
  {
  }

  lemma {:induction false} FindKeeps(c: Config, s: State, t: nat, pc: Pc)
    requires t in s.pcs && s.pcs[t] == pc && (pc.FindRoot? || pc.FindAt? || pc.Looked?)
    ensures var s1 := Exec(c, s, t);
            && s1.nodes == s.nodes && s1.slots == s.slots && s1.head == s.head && s1.inserted == s.inserted
            && t in s1.pcs && s1.pcs == s.pcs[t := s1.pcs[t]]
            && forall g :: g in s.live ==> g in s1.live && s1.live[g].addr == s.live[g].addr
  {
    ExecFind(c, s, t, pc);
  }

  lemma {:induction false} HandsFind(c: Config, s: State, chain: seq<Ptr>, t: nat, pc: Pc)
    requires Chain(s.slots, s.head, chain) && t in s.pcs && s.pcs[t] == pc && (pc.FindRoot? || pc.FindAt? || pc.Looked?)
    ensures Hands(s, Exec(c, s, t), chain, chain, t)
  {
    FindKeeps(c, s, t, pc);
    SameCallers(s.live, Exec(c, s, t).live);
  }

  lemma {:induction false} HandsOwner(c: Config, s: State, chain: seq<Ptr>, t: nat, pc: Pc)
    requires Chain(s.slots, s.head, chain) && t in s.pcs && s.pcs[t] == pc
    requires pc.Dec? || ((pc.ShareOr? || pc.ClearLoad? || pc.ClearCas?) && pc.cur in s.nodes && Committed(pc))
    requires pc.ShareOr? ==> pc.search.ForShare?
    requires pc.ClearCas? ==>
               && pc.search.ForFree? && pc.search.grant in s.live
               && s.live[pc.search.grant].addr == s.nodes[pc.cur].addr
    ensures Hands(s, Exec(c, s, t), chain, chain, t)
  {
    ExecOwner(c, s, t, pc);
    var s1 := Exec(c, s, t);
    forall k | WithCallers(s.live, k) ensures WithCallers(s1.live, k) || Owned(s1.nodes, s1.slots, s1.pcs[t]) == k {
      var g :| g in s.live && s.live[g].addr == k;
      if g in s1.live { assert s1.live[g].addr == k; }
    }
  }

  lemma {:induction false} HandsStart(s: State, chain: seq<Ptr>, t: nat, call: Call)
    requires Chain(s.slots, s.head, chain) && t in s.pcs && s.pcs[t].Idle?
    ensures Hands(s, Begin(s, t, call), chain, chain, t)
  {
    SameCallers(s.live, Begin(s, t, call).live);
  }

  lemma {:induction false} HandsRun(c: Config, s: State, v: View, t: nat, pc: Pc) returns (chain1: seq<Ptr>)
    requires v in Views(c, s) && t in s.pcs && s.pcs[t] == pc && !pc.Idle? && NoWrap(s, t) && !StalePop(s, Run(t))
    requires !LacksMetadata(c, s, Run(t))
    ensures Hands(s, Exec(c, s, t), v.chain, chain1, t)
  {
    assert ListPc(s.slots, v.chain, pc) && TreePc(s.root, s.nodes, v.shape, pc);
    chain1 := v.chain;
    if pc.PopHead? || pc.PopNext? || pc.PopCas? {
      assert pc.PopCas? ==> RecordIn(c, pc.top, SLOT_BYTES, s.nodeBump);
      chain1 := HandsPop(c, s, v.chain, t, pc);
    } else if pc.PushHead? || pc.PushLink? || pc.PushCas? {
      chain1 := HandsPush(c, s, v.chain, t, pc);
    } else if pc.Bump? || pc.NewNode? {
      assert s.nodeBump in s.nodes ==> RecordIn(c, s.nodeBump, NODE_BYTES, s.nodeBump);
      HandsAlloc(c, s, v.chain, t, pc);
    } else if pc.NewSlot? {
      assert s.nodeBump in s.slots ==> RecordIn(c, s.nodeBump, SLOT_BYTES, s.nodeBump);
      HandsNewSlot(c, s, v.chain, t, pc);
    } else if pc.Inc? {
      assert s.nextGrant in s.live ==> GrantOk(s.nextGrant, s.inserted, v.ext, v.st, s.nextGrant, s.live[s.nextGrant]);
      ExecAlloc(c, s, t, pc);
      HandsInc(s, v.chain, t, pc);
    } else if pc.FindRoot? || pc.FindAt? || pc.Looked? {
      HandsFind(c, s, v.chain, t, pc);
    } else if pc.ShareOr? || pc.ClearLoad? || pc.ClearCas? || pc.Dec? {
      if pc.ShareOr? || pc.ClearCas? {
        CallKnows(s.root, s.nodes, v.shape, s.nextGrant, s.inserted, v.ext, v.st, s.live, s.pcs, t, pc);
      }
      HandsOwner(c, s, v.chain, t, pc);
    } else {
      if pc.InsAt? || pc.InsCas? { OnPathIn(s.nodes, v.shape, s.nodes[pc.ins.node].addr, pc.cur); }
      HandsInsert(c, s, v.chain, t, pc);
    }
  }

  lemma {:induction false} CompleteStep(c: Config, s: State, m: Move)
    requires Good(c, s) && Complete(s) && Legal(s, m) && !StalePop(s, m) && !LacksMetadata(c, s, m)
    ensures Complete(Do(c, s, m))
  {
    var v :| v in Views(c, s);
    StepGood(c, s, m);
    forall k | k in Do(c, s, m).inserted ensures k != 0 { BlockInPayload(c, Do(c, s, m), k); }
    match m {
      case Start(t, call) =>
        HandsStart(s, v.chain, t, call);
        CompleteMove(c, s, v, Begin(s, t, call), v.chain, t);
      case Run(t) =>
        var chain1 := HandsRun(c, s, v, t, s.pcs[t]);
        CompleteMove(c, s, v, Exec(c, s, t), chain1, t);
    }
  }

  lemma {:induction false} RunsComplete(c: Config, s: State, moves: seq<Move>)
    requires Good(c, s) && Complete(s) && LegalRun(c, s, moves) && NoStalePops(c, s, moves)
             && MetadataLasts(c, s, moves)
    ensures Complete(After(c, s, moves))
    decreases |moves|
  {
    if moves != [] {
      CompleteStep(c, s, moves[0]);
      StepGood(c, s, moves[0]);
      RunsComplete(c, Do(c, s, moves[0]), moves[1..]);
    }
  }

  /** In every interleaving without stale pops in which metadata lasts, every block that was ever handed out is
      with its callers, on the free list, or in the hands of a thread that is releasing or reusing it. */
  lemma {:induction false} NothingIsLost(c: Config, threads: set<nat>, moves: seq<Move>)
    requires c.WellFormed() && LegalRun(c, Initial(c, threads), moves) && NoStalePops(c, Initial(c, threads), moves)
    requires MetadataLasts(c, Initial(c, threads), moves)
    ensures Complete(After(c, Initial(c, threads), moves))
  {
    var o := Initial(c, threads);
    InitialGood(c, threads);
    assert Chain(o.slots, o.head, []);
    RunsComplete(c, o, moves);
  }
}
