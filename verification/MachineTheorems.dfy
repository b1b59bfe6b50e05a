/** What the invariants say about the tree, the metadata region and the owners, over whole runs. */
module MachineTheorems {
  import opened Words
  import opened Layout
  import opened SearchTree
  import opened FreeStack
  import opened Machine
  import opened MachineInvariant
  import opened MachineMoves
  import opened MachineOwners
  import opened MachineCalls
  import opened MachineSafety
  import opened MachineTree

  /** Some legal run ends in `s`, with stale pops or without. */
  ghost predicate Reached(c: Config, s: State) {
    exists threads: set<nat>, moves ::
      LegalRun(c, Initial(c, threads), moves) && After(c, Initial(c, threads), moves) == s
  }

  lemma {:induction false} ReachedShape(c: Config, s: State) returns (shape: Shape)
    requires c.WellFormed() && Reached(c, s)
    ensures shape in Shapes(c, s)
  {
    var threads: set<nat>, moves :| LegalRun(c, Initial(c, threads), moves)
        && After(c, Initial(c, threads), moves) == s;
    InitialRooted(c, threads);
    RunsRooted(c, Initial(c, threads), moves);
    shape :| shape in Shapes(c, s);
  }

  // ---- The tree --------------------------------------------------------------------------------------

  /** At every moment the links spell out a search tree that holds exactly the inserted addresses. */
  lemma {:induction false} AlwaysASearchTree(c: Config, s: State) returns (shape: Shape)
    requires c.WellFormed() && Reached(c, s)
    ensures Rep(s.nodes, s.root, shape, -1, WORD)
    ensures forall k :: k in s.inserted <==> HasKey(s.nodes, shape, k)
  {
    shape := ReachedShape(c, s);
  }

  /** Every search and every insertion in progress stands on a record that heads a search tree over
      an interval of addresses which contains the address it is looking for. */
  lemma {:induction false} CursorsStayInInterval(c: Config, s: State, t: nat) returns (sub: Shape, lo: int, hi: int)
    requires c.WellFormed() && Reached(c, s) && t in s.pcs
    requires s.pcs[t].InsAt? || s.pcs[t].InsCas? || (s.pcs[t].FindAt? && s.pcs[t].search.addr < WORD)
    ensures var k := if s.pcs[t].FindAt? then s.pcs[t].search.addr else NodeAt(s.nodes, s.pcs[t].ins.node).addr;
            lo < k < hi && Rep(s.nodes, s.pcs[t].cur, sub, lo, hi)
  {
    var shape := ReachedShape(c, s);
    var pc := s.pcs[t];
    assert TreePc(s.root, s.nodes, shape, pc);
    var k := if pc.FindAt? then pc.search.addr else NodeAt(s.nodes, pc.ins.node).addr;
    sub, lo, hi := OnPathInterval(s.nodes, s.root, shape, -1, WORD, k, pc.cur);
  }

  /** A search finds every address that was in the tree when it started, whatever is inserted meanwhile;
      and it finds nothing else.  In particular Share and FreeVarying never report a held block as missing. */
  lemma {:induction false} SearchesFindWhatWasThere(c: Config, s: State, t: nat)
    requires c.WellFormed() && Reached(c, s) && t in s.pcs
    ensures s.pcs[t].Looked? && s.pcs[t].present ==> s.pcs[t].found
    ensures s.pcs[t].Looked? && s.pcs[t].found ==> s.pcs[t].addr in s.inserted
    ensures s.pcs[t].FindRoot? && MustFind(s.pcs[t].search) ==> s.root != NIL
    ensures s.pcs[t].FindAt? && MustFind(s.pcs[t].search)
            && NodeAt(s.nodes, s.pcs[t].cur).addr != s.pcs[t].search.addr ==>
              Child(NodeAt(s.nodes, s.pcs[t].cur), s.pcs[t].search.addr) != NIL
  {
    var shape := ReachedShape(c, s);
    assert TreePc(s.root, s.nodes, shape, s.pcs[t]);
    if s.pcs[t].FindAt? && MustFind(s.pcs[t].search) && NodeAt(s.nodes, s.pcs[t].cur).addr != s.pcs[t].search.addr {
      NeverMiss(s.root, s.nodes, shape, s.pcs[t]);
    }
    if s.pcs[t].FindRoot? && MustFind(s.pcs[t].search) {
      assert shape != Leaf;
    }
  }

  /** An insertion loses the compare-and-swap on any one link at most once. */
  lemma {:induction false} OneLossPerLink(c: Config, s: State, t: nat)
    requires c.WellFormed() && Reached(c, s) && t in s.pcs && PrivateNode(s.pcs[t]) != NIL
    ensures Distinct(s.pcs[t].ins.lost)
    ensures forall l :: l in s.pcs[t].ins.lost ==> LinkValue(s.root, s.nodes, l) != NIL
    ensures s.pcs[t].InsRootCas? ==> RootLink !in s.pcs[t].ins.lost
    ensures s.pcs[t].InsCas? ==>
              LinkFor(NodeAt(s.nodes, s.pcs[t].cur), s.pcs[t].cur,
                  NodeAt(s.nodes, s.pcs[t].ins.node).addr) !in s.pcs[t].ins.lost
  {
    var shape := ReachedShape(c, s);
    assert TreePc(s.root, s.nodes, shape, s.pcs[t]);
  }

  // ---- The metadata region ---------------------------------------------------------------------------------

  /** Records lie in the metadata region, do not overlap, and fit its budget. */
  lemma {:induction false} RecordsFitTheBudget(c: Config, s: State)
    requires c.WellFormed() && Reached(c, s)
    ensures NODE_BYTES * |s.nodes| + SLOT_BYTES * |s.slots| <= c.nodeEnd - c.nodeBase
    ensures forall p :: p in s.nodes ==> c.nodeBase <= p && p + NODE_BYTES <= c.nodeEnd <= c.payloadBase
    ensures forall p :: p in s.slots ==> c.nodeBase <= p && p + SLOT_BYTES <= c.nodeEnd <= c.payloadBase
    ensures forall p, q :: p in s.nodes && q in s.nodes && p != q ==> Apart(p, NODE_BYTES, q, NODE_BYTES)
    ensures forall p, q :: p in s.slots && q in s.slots && p != q ==> Apart(p, SLOT_BYTES, q, SLOT_BYTES)
    ensures forall p, q :: p in s.nodes && q in s.slots ==> Apart(p, NODE_BYTES, q, SLOT_BYTES)
  {
    var shape := ReachedShape(c, s);
    assert forall p :: p in s.nodes ==> RecordIn(c, p, NODE_BYTES, s.nodeBump);
    assert forall p :: p in s.slots ==> RecordIn(c, p, SLOT_BYTES, s.nodeBump);
  }

  // ---- Runs without stale pops --------------------------------------------------------------------------

  /** Some legal run without a stale pop ends in `s`. */
  ghost predicate Reachable(c: Config, s: State) {
    exists threads: set<nat>, moves ::
      LegalRun(c, Initial(c, threads), moves) && NoStalePops(c, Initial(c, threads), moves)
      && After(c, Initial(c, threads), moves) == s
  }

  lemma {:induction false} ReachableView(c: Config, s: State) returns (v: View)
    requires c.WellFormed() && Reachable(c, s)
    ensures v in Views(c, s)
  {
    var threads: set<nat>, moves :| LegalRun(c, Initial(c, threads), moves)
        && NoStalePops(c, Initial(c, threads), moves)
                                    && After(c, Initial(c, threads), moves) == s;
    InitialGood(c, threads);
    RunsGood(c, Initial(c, threads), moves);
    v :| v in Views(c, s);
  }

  // ---- Owners ------------------------------------------------------------------------------------------

  /** A release that is about to leave no owner is the only call on the block, and no caller holds a bit:
      nobody sees zero while an owner is left. */
  lemma {:induction false} ZeroMeansNobodyLeft(c: Config, s: State, t: nat)
    requires c.WellFormed() && Reachable(c, s) && t in s.pcs
    requires s.pcs[t].ClearCas? && s.pcs[t].search.ForFree? && NodeAt(s.nodes, s.pcs[t].cur).mask == s.pcs[t].seen
    requires s.pcs[t].seen - s.pcs[t].search.bits == {}
    ensures var g := s.pcs[t].search.grant;
            && g in s.live && s.live[g].held == {}
            && forall u :: u in s.pcs && u != t ==> !CommittedTo(s.pcs[u], g)
  {
    var v := ReachableView(c, s);
    assert TreePc(s.root, s.nodes, v.shape, s.pcs[t]);
    CallKnows(s.root, s.nodes, v.shape, s.nextGrant, s.inserted, v.ext, v.st, s.live, s.pcs, t, s.pcs[t]);
    LastOwnerIsAlone(s.nodes, v.shape, s.live, s.pcs, t, s.pcs[t]);
  }

  // ---- The free list -------------------------------------------------------------------------------------

  /** A successful pop takes exactly the top off the list if and only if it is not stale. */
  lemma {:induction false} PopTakesTheTopExactlyWhenFresh(c: Config, s: State, t: nat, chain: seq<Ptr>)
    requires c.WellFormed() && Reachable(c, s) && t in s.pcs && s.pcs[t].PopCas? && s.head == s.pcs[t].top
    requires Chain(s.slots, s.head, chain)
    ensures chain != []
    ensures Chain(Exec(c, s, t).slots, Exec(c, s, t).head, chain[1..]) <==> !StalePop(s, Run(t))
  {
    var v := ReachableView(c, s);
    assert ListPc(s.slots, v.chain, s.pcs[t]);
    assert RecordIn(c, s.head, SLOT_BYTES, s.nodeBump);
    ExecPop(c, s, t, s.pcs[t]);
  }
}
