/** Two request sizes are enough to break safety: a run in which a stale pop hands one block to two callers.

    Two blocks of the smaller size are free.  Thread 1 reads the top and its next pointer.  Thread 2 asks for
    more than the top holds, pops it and will push the same record back.  In between, thread 3 takes the slot
    below it.  Thread 1's compare-and-swap still succeeds and swings the head to the slot that thread 3 has
    taken, and thread 4 takes the same block.
 */
module MachineStalePop {
  import opened Words
  import opened Layout
  import opened SearchTree
  import opened FreeStack
  import opened Machine
  import opened MachineMoves
  import opened MachineSafety

  /** A super-block and two sizes that callers ask for. */
  datatype Setup = Setup(c: Config, small: nat, large: nat) {
    /** What the smaller request takes. */
    function W(): nat { AlignUp(small, 8) }

    function V(): nat { AlignUp(large, 8) }

    /** The two blocks. */
    function A(): nat { c.payloadBase }

    function B(): nat { c.payloadBase + W() }

    /** The record at offset `i` of the metadata region. */
    function At(i: nat): Ptr { c.nodeBase + i }

    /** The sizes differ once aligned, and there is room for two small blocks, their records and their slots. */
    predicate Ok() {
      && c.WellFormed()
      && 0 < small <= WORD - 8 && 0 < large <= WORD - 8
      && W() < V()
      && c.payloadBase + 2 * W() <= c.payloadEnd
      && c.nodeBase + 128 <= c.nodeEnd
    }

    /** There is room for two more records. */
    predicate Roomy() {
      c.nodeBase + 208 <= c.nodeEnd
    }
  }

  ghost predicate MoveAt(e: Setup, states: seq<State>, moves: seq<Move>, i: nat) {
    && i + 1 < |states| && i < |moves|
    && Legal(states[i], moves[i])
    && Asks(moves[i], {e.small, e.large})
    && Do(e.c, states[i], moves[i]) == states[i + 1]
  }

  /** An allocation asks for one of the sizes. */
  predicate Asks(m: Move, sizes: set<nat>) {
    m.Start? && m.call.CallAlloc? ==> m.call.size in sizes
  }

  /** `moves` leads through `states`. */
  ghost predicate Trace(e: Setup, states: seq<State>, moves: seq<Move>) {
    && |states| == |moves| + 1
    && forall i: nat {:trigger MoveAt(e, states, moves, i)} :: i < |moves| ==> MoveAt(e, states, moves, i)
  }

  ghost predicate Reaches(e: Setup, s: State, r: State) {
    exists states, moves :: Trace(e, states, moves) && states[0] == s && states[|moves|] == r
  }

  lemma {:induction false} ReachesItself(e: Setup, s: State)
    ensures Reaches(e, s, s)
  {
    var states, moves: seq<Move> := [s], [];
    assert Trace(e, states, moves) && states[0] == s && states[|moves|] == s;
  }

  lemma {:induction false} Then(e: Setup, s: State, r: State, m: Move, q: State)
    requires Reaches(e, s, r) && Legal(r, m) && Asks(m, {e.small, e.large}) && Do(e.c, r, m) == q
    ensures Reaches(e, s, q)
  {
    var states, moves :| Trace(e, states, moves) && states[0] == s && states[|moves|] == r;
    var more, last := states + [q], moves + [m];
    forall i: nat | i < |last| ensures MoveAt(e, more, last, i) {
      if i < |moves| { assert MoveAt(e, states, moves, i); }
    }
    assert Trace(e, more, last) && more[0] == s && more[|last|] == q;
  }

  ghost predicate AsksOnly(moves: seq<Move>, sizes: set<nat>) {
    forall i :: 0 <= i < |moves| ==> Asks(moves[i], sizes)
  }

  lemma {:induction false} TraceIsRun(e: Setup, states: seq<State>, moves: seq<Move>)
    requires Trace(e, states, moves)
    ensures LegalRun(e.c, states[0], moves) && After(e.c, states[0], moves) == states[|moves|]
    ensures AsksOnly(moves, {e.small, e.large})
    decreases |moves|
  {
    forall i: nat | i < |moves| ensures Asks(moves[i], {e.small, e.large}) { assert MoveAt(e, states, moves, i); }
    if moves != [] {
      assert MoveAt(e, states, moves, 0);
      forall i: nat | i < |moves[1..]| ensures MoveAt(e, states[1..], moves[1..], i) {
        assert MoveAt(e, states, moves, i + 1);
      }
      TraceIsRun(e, states[1..], moves[1..]);
    }
  }

  // ---- One move, pc by pc ----------------------------------------------------------------------------

  lemma {:induction false} GoAlloc(e: Setup, o: State, s: State, t: nat, size: nat)
    requires e.Ok() && Reaches(e, o, s) && t in s.pcs && s.pcs[t] == Idle && size in {e.small, e.large}
    ensures Reaches(e, o, Goto(s, t, PopHead(AlignUp(size, 8), {0})))
  {
    Then(e, o, s, Start(t, CallAlloc(size, {0})), Goto(s, t, PopHead(AlignUp(size, 8), {0})));
  }

  lemma {:induction false} GoFree(e: Setup, o: State, s: State, t: nat, g: nat, addr: nat)
    requires Reaches(e, o, s) && t in s.pcs && s.pcs[t] == Idle && g in s.live && s.live[g].held == {0}
             && s.live[g].addr == addr
    ensures Reaches(e, o, Goto(s.(live := s.live[g := s.live[g].(held := {})]), t, FindRoot(ForFree(g, addr, {0}))))
  {
    assert {0} - {0} == {};
    Then(e, o, s, Start(t, CallFree(g, {0})),
        Goto(s.(live := s.live[g := s.live[g].(held := {})]), t, FindRoot(ForFree(g, addr, {0}))));
  }

  lemma {:induction false} Go(e: Setup, o: State, s: State, t: nat)
    requires Reaches(e, o, s) && t in s.pcs && !s.pcs[t].Idle? && NoWrap(s, t)
    ensures Reaches(e, o, Exec(e.c, s, t))
  {
    Then(e, o, s, Run(t), Exec(e.c, s, t));
  }

  lemma {:induction false} GoPop(e: Setup, o: State, s: State, t: nat, pc: Pc)
    requires Reaches(e, o, s) && t in s.pcs && s.pcs[t] == pc && (pc.PopHead? || pc.PopNext? || pc.PopCas?)
    ensures pc.PopHead? ==>
            Reaches(e, o, Goto(s, t, if s.head == NIL then Bump(pc.want, pc.mask)
                else PopNext(pc.want, pc.mask, s.head)))
    ensures pc.PopNext? ==> Reaches(e, o, Goto(s, t, PopCas(pc.want, pc.mask, pc.top, SlotAt(s.slots, pc.top).next)))
    ensures pc.PopCas? && s.head == pc.top ==> Reaches(e, o, Goto(s.(head := pc.next), t, Taken(s.slots, pc, pc.top)))
  {
    Go(e, o, s, t);
    ExecPop(e.c, s, t, pc);
  }

  lemma {:induction false} GoBump(e: Setup, o: State, s: State, t: nat, pc: Pc)
    requires e.c.WellFormed() && Reaches(e, o, s) && t in s.pcs && s.pcs[t] == pc && pc.Bump?
             && s.bump + pc.want <= e.c.payloadEnd
    ensures Reaches(e, o, Goto(s.(bump := s.bump + pc.want), t, NewNode(pc.want, pc.mask, s.bump, pc.want)))
  {
    Go(e, o, s, t);
    ExecAlloc(e.c, s, t, pc);
  }

  lemma {:induction false} GoNewNode(e: Setup, o: State, s: State, t: nat, pc: Pc)
    requires e.c.WellFormed() && Reaches(e, o, s) && t in s.pcs && s.pcs[t] == pc && pc.NewNode? && pc.mask == {0}
             && s.nodeBump + NODE_BYTES <= e.c.nodeEnd
    ensures Reaches(e, o, Goto(s.(nodes := s.nodes[s.nodeBump := Node(pc.addr, pc.size, {0}, NIL, NIL)],
                               nodeBump := s.nodeBump + NODE_BYTES), t, InsRoot(Insertion(pc.want, s.nodeBump, []))))
  {
    Go(e, o, s, t);
    ExecAlloc(e.c, s, t, pc);
  }

  lemma {:induction false} GoInc(e: Setup, o: State, s: State, t: nat, pc: Pc)
    requires e.c.WellFormed() && Reaches(e, o, s) && t in s.pcs && s.pcs[t] == pc && pc.Inc?
    ensures Reaches(e, o, DoInc(s, t, pc))
  {
    Go(e, o, s, t);
    ExecAlloc(e.c, s, t, pc);
  }

  lemma {:induction false} GoInsRoot(e: Setup, o: State, s: State, t: nat, pc: Pc)
    requires Reaches(e, o, s) && t in s.pcs && s.pcs[t] == pc && pc.InsRoot?
    ensures Reaches(e, o, Goto(s, t, if s.root == NIL then InsRootCas(pc.ins) else InsAt(pc.ins, s.root)))
  {
    Go(e, o, s, t);
    ExecInsert(e.c, s, t, pc);
  }

  lemma {:induction false} GoInsRootCas(e: Setup, o: State, s: State, t: nat, pc: Pc)
    requires Reaches(e, o, s) && t in s.pcs && s.pcs[t] == pc && pc.InsRootCas? && s.root == NIL
    ensures Reaches(e, o, Inserted(s.(root := pc.ins.node), t, pc.ins))
  {
    Go(e, o, s, t);
    ExecInsert(e.c, s, t, pc);
  }

  lemma {:induction false} GoInsAt(e: Setup, o: State, s: State, t: nat, pc: Pc)
    requires Reaches(e, o, s) && t in s.pcs && s.pcs[t] == pc && pc.InsAt?
    ensures var k, x := NodeAt(s.nodes, pc.ins.node).addr, NodeAt(s.nodes, pc.cur);
            Reaches(e, o, if k == x.addr
                       then Goto(s.(nodes := s.nodes[pc.cur := x.(size := NodeAt(s.nodes, pc.ins.node).size)]), t,
                           InsMerge(pc.ins, pc.cur))
                       else Goto(s, t, if Child(x, k) == NIL then InsCas(pc.ins, pc.cur)
                           else InsAt(pc.ins, Child(x, k))))
  {
    Go(e, o, s, t);
    ExecInsert(e.c, s, t, pc);
  }

  lemma {:induction false} GoInsCas(e: Setup, o: State, s: State, t: nat, pc: Pc)
    requires Reaches(e, o, s) && t in s.pcs && s.pcs[t] == pc && pc.InsCas?
    requires Child(NodeAt(s.nodes, pc.cur), NodeAt(s.nodes, pc.ins.node).addr) == NIL
    ensures Reaches(e, o,
            Inserted(s.(nodes :=
                s.nodes[pc.cur := WithChild(NodeAt(s.nodes, pc.cur), NodeAt(s.nodes, pc.ins.node).addr, pc.ins.node)]),
                    t, pc.ins))
  {
    Go(e, o, s, t);
    ExecInsert(e.c, s, t, pc);
  }

  lemma {:induction false} GoInsMerge(e: Setup, o: State, s: State, t: nat, pc: Pc)
    requires Reaches(e, o, s) && t in s.pcs && s.pcs[t] == pc && pc.InsMerge?
    ensures Reaches(e, o, DoInsMerge(s, t, pc))
  {
    Go(e, o, s, t);
    ExecInsert(e.c, s, t, pc);
  }

  lemma {:induction false} GoFindRoot(e: Setup, o: State, s: State, t: nat, pc: Pc)
    requires Reaches(e, o, s) && t in s.pcs && s.pcs[t] == pc && pc.FindRoot? && s.root != NIL
    ensures Reaches(e, o, Goto(s, t, FindAt(pc.search, s.root)))
  {
    Go(e, o, s, t);
    ExecFind(e.c, s, t, pc);
  }

  lemma {:induction false} GoFindAt(e: Setup, o: State, s: State, t: nat, pc: Pc)
    requires Reaches(e, o, s) && t in s.pcs && s.pcs[t] == pc && pc.FindAt? && pc.search.ForFree?
    requires NodeAt(s.nodes, pc.cur).addr == pc.search.addr || Child(NodeAt(s.nodes, pc.cur), pc.search.addr) != NIL
    ensures var x := NodeAt(s.nodes, pc.cur);
            Reaches(e, o, Goto(s, t, if x.addr == pc.search.addr then ClearLoad(pc.search, pc.cur)
                else FindAt(pc.search, Child(x, pc.search.addr))))
  {
    Go(e, o, s, t);
    ExecFind(e.c, s, t, pc);
  }

  /** From the load of the mask to the push of the slot, by a thread that nobody disturbs. */
  lemma {:induction false} GoClear(e: Setup, o: State, s: State, t: nat, q: Search, cur: Ptr)
    requires Reaches(e, o, s) && t in s.pcs && s.pcs[t] == ClearLoad(q, cur) && q.ForFree?
             && NodeAt(s.nodes, cur).mask == q.bits
    ensures Reaches(e, o, Goto(s.(nodes := WithMask(s.nodes, cur, {}), live := s.live - {q.grant}), t, NewSlot(cur)))
  {
    Go(e, o, s, t);
    ExecOwner(e.c, s, t, ClearLoad(q, cur));
    var a := Goto(s, t, ClearCas(q, cur, q.bits));
    Go(e, o, a, t);
    assert q.bits - q.bits == {};
    ExecOwner(e.c, a, t, ClearCas(q, cur, q.bits));
    var b := Goto(a.(nodes := WithMask(s.nodes, cur, {}), live := s.live - {q.grant}), t, NewSlot(cur));
    assert b.pcs == s.pcs[t := NewSlot(cur)];
  }

  lemma {:induction false} GoNewSlot(e: Setup, o: State, s: State, t: nat, pc: Pc)
    requires e.c.WellFormed() && Reaches(e, o, s) && t in s.pcs && s.pcs[t] == pc && pc.NewSlot?
             && s.nodeBump + SLOT_BYTES <= e.c.nodeEnd
    ensures Reaches(e, o,
            Goto(s.(slots :=
                s.slots[s.nodeBump := Slot(NodeAt(s.nodes, pc.cur).addr, NodeAt(s.nodes, pc.cur).size, NIL)],
                               nodeBump := s.nodeBump + SLOT_BYTES), t, PushHead(Release, s.nodeBump)))
  {
    Go(e, o, s, t);
    ExecAlloc(e.c, s, t, pc);
  }

  /** The three moves of a push that nobody disturbs. */
  lemma {:induction false} GoPush(e: Setup, o: State, s: State, t: nat, push: Push, slot: Ptr)
    requires Reaches(e, o, s) && t in s.pcs && s.pcs[t] == PushHead(push, slot)
    ensures Reaches(e, o, Goto(s.(slots := Relinked(s.slots, slot, s.head), head := slot), t, AfterPush(push)))
  {
    Go(e, o, s, t);
    ExecPush(e.c, s, t, PushHead(push, slot));
    var a := Goto(s, t, PushLink(push, slot, s.head));
    Go(e, o, a, t);
    ExecPush(e.c, a, t, PushLink(push, slot, s.head));
    var b := Goto(a.(slots := Relinked(s.slots, slot, s.head)), t, PushCas(push, slot, s.head));
    Go(e, o, b, t);
    ExecPush(e.c, b, t, PushCas(push, slot, s.head));
    var d := Goto(b.(head := slot), t, AfterPush(push));
    assert d.pcs == s.pcs[t := AfterPush(push)];
  }

  lemma {:induction false} GoDec(e: Setup, o: State, s: State, t: nat)
    requires Reaches(e, o, s) && t in s.pcs && s.pcs[t] == Dec
    ensures Reaches(e, o, Goto(s.(active := s.active - 1), t, Idle))
  {
    Go(e, o, s, t);
    ExecOwner(e.c, s, t, Dec);
  }

  /** The call, the load of the head and the load of its next pointer. */
  lemma {:induction false} GoLook(e: Setup, o: State, s: State, t: nat, size: nat)
    requires e.Ok() && Reaches(e, o, s) && t in s.pcs && s.pcs[t] == Idle && size in {e.small, e.large} && s.head != NIL
    ensures Reaches(e, o, Goto(s, t, PopCas(AlignUp(size, 8), {0}, s.head, SlotAt(s.slots, s.head).next)))
  {
    var want := AlignUp(size, 8);
    GoAlloc(e, o, s, t, size);
    var a := Goto(s, t, PopHead(want, {0}));
    GoPop(e, o, a, t, PopHead(want, {0}));
    var b := Goto(a, t, PopNext(want, {0}, s.head));
    GoPop(e, o, b, t, PopNext(want, {0}, s.head));
    var d := Goto(b, t, PopCas(want, {0}, s.head, SlotAt(s.slots, s.head).next));
    assert d.pcs == s.pcs[t := PopCas(want, {0}, s.head, SlotAt(s.slots, s.head).next)];
  }

  /** The rest of a release by the last owner, once the record is found. */
  lemma {:induction false} GoRelease(e: Setup, o: State, s: State, t: nat, q: Search, cur: Ptr)
    requires e.c.WellFormed() && Reaches(e, o, s) && t in s.pcs && s.pcs[t] == ClearLoad(q, cur) && q.ForFree?
             && cur in s.nodes && s.nodes[cur].mask == q.bits
    requires s.nodeBump + SLOT_BYTES <= e.c.nodeEnd
    ensures Reaches(e, o, s.(nodes := WithMask(s.nodes, cur, {}), live := s.live - {q.grant}, head := s.nodeBump,
                          slots := s.slots[s.nodeBump := Slot(s.nodes[cur].addr, s.nodes[cur].size, s.head)],
                          nodeBump := s.nodeBump + SLOT_BYTES, active := s.active - 1, pcs := s.pcs[t := Idle]))
  {
    GoClear(e, o, s, t, q, cur);
    var a := Goto(s.(nodes := WithMask(s.nodes, cur, {}), live := s.live - {q.grant}), t, NewSlot(cur));
    GoNewSlot(e, o, a, t, NewSlot(cur));
    var n := Slot(s.nodes[cur].addr, s.nodes[cur].size, NIL);
    var b := Goto(a.(slots := s.slots[s.nodeBump := n], nodeBump := s.nodeBump + SLOT_BYTES), t,
        PushHead(Release, s.nodeBump));
    GoPush(e, o, b, t, Release, s.nodeBump);
    var d := Goto(b.(slots := Relinked(b.slots, s.nodeBump, s.head), head := s.nodeBump), t, Dec);
    GoDec(e, o, d, t);
    var f := Goto(d.(active := s.active - 1), t, Idle);
    assert f.pcs == s.pcs[t := Idle] && f.slots == s.slots[s.nodeBump := n.(next := s.head)];
  }

  /** From the search for a place to the grant, when the root's right child is the record to merge into. */
  lemma {:induction false} GoReuse(e: Setup, o: State, s: State, t: nat, pc: Pc)
    requires e.c.WellFormed() && Reaches(e, o, s) && t in s.pcs && s.pcs[t] == pc && pc.NewNode? && pc.mask == {0}
    requires var p, q := e.At(0), e.At(40);
             && s.nodeBump != p && s.nodeBump != q && s.nodeBump + NODE_BYTES <= e.c.nodeEnd
             && s.root == p && p in s.nodes && q in s.nodes && s.nodes[p].right == q && s.nodes[p].addr < pc.addr
             && s.nodes[q].addr == pc.addr && s.nodes[q].size == pc.size
    ensures Reaches(e, o, DoInc(Merged(e, s, t, pc), t, Inc(pc.want, pc.addr, {0})))
  {
    var raw, p, q := s.nodeBump, e.At(0), e.At(40);
    GoNewNode(e, o, s, t, pc);
    var i := Insertion(pc.want, raw, []);
    var a := Goto(s.(nodes := s.nodes[raw := Node(pc.addr, pc.size, {0}, NIL, NIL)], nodeBump := raw + NODE_BYTES), t,
        InsRoot(i));
    GoInsRoot(e, o, a, t, InsRoot(i));
    var b := Goto(a, t, InsAt(i, p));
    GoInsAt(e, o, b, t, InsAt(i, p));
    var d := Goto(b, t, InsAt(i, q));
    GoInsAt(e, o, d, t, InsAt(i, q));
    var y := Goto(d, t, InsMerge(i, q));
    assert d.nodes[q := d.nodes[q].(size := pc.size)] == d.nodes;
    GoInsMerge(e, o, y, t, InsMerge(i, q));
    var z := DoInsMerge(y, t, InsMerge(i, q));
    assert z.pcs == Merged(e, s, t, pc).pcs;
    GoInc(e, o, z, t, Inc(pc.want, pc.addr, {0}));
  }

  ghost function Merged(e: Setup, s: State, t: nat, pc: Pc): State
    requires pc.NewNode? && e.At(40) in s.nodes
  {
    var nodes := s.nodes[s.nodeBump := Node(pc.addr, pc.size, {0}, NIL, NIL)];
    s.(nodes := WithMask(nodes, e.At(40), NodeAt(nodes, e.At(40)).mask + {0}), nodeBump := s.nodeBump + NODE_BYTES,
       pcs := s.pcs[t := Inc(pc.want, pc.addr, {0})])
  }

  // ---- The run -------------------------------------------------------------------------------------------

  function Pcs(a: Pc, b: Pc, c: Pc, d: Pc): map<nat, Pc> {
    map[1 := a, 2 := b, 3 := c, 4 := d]
  }

  function AllIdle(): map<nat, Pc> {
    Pcs(Idle, Idle, Idle, Idle)
  }

  ghost function S0(e: Setup): State {
    Initial(e.c, {1, 2, 3, 4})
  }

  /** Thread 1 has the first block. */
  ghost function S1(e: Setup): State {
    State(e.At(0), map[e.At(0) := Node(e.A(), e.W(), {0}, NIL, NIL)], NIL, map[], e.B(), e.At(40), 1, AllIdle(),
          map[0 := Grant(e.A(), e.W(), {0})], 1, {e.A()})
  }

  /** From the call to the unlinked record of a block that the bump pointer gives. */
  lemma {:induction false} GoFresh(e: Setup, o: State, s: State)
    requires e.Ok() && Reaches(e, o, s) && 1 in s.pcs && s.pcs[1] == Idle && s.head == NIL
    requires s.bump + e.W() <= e.c.payloadEnd && s.nodeBump + NODE_BYTES <= e.c.nodeEnd
    ensures Reaches(e, o,
            Goto(s.(bump := s.bump + e.W(), nodes := s.nodes[s.nodeBump := Node(s.bump, e.W(), {0}, NIL, NIL)],
                                  nodeBump := s.nodeBump + NODE_BYTES), 1, InsRoot(Insertion(e.W(), s.nodeBump, []))))
  {
    var w := e.W();
    GoAlloc(e, o, s, 1, e.small);
    var a := Goto(s, 1, PopHead(w, {0}));
    GoPop(e, o, a, 1, PopHead(w, {0}));
    var b := Goto(a, 1, Bump(w, {0}));
    GoBump(e, o, b, 1, Bump(w, {0}));
    var d := Goto(b.(bump := s.bump + w), 1, NewNode(w, {0}, s.bump, w));
    GoNewNode(e, o, d, 1, NewNode(w, {0}, s.bump, w));
    var f := Goto(d.(nodes := s.nodes[s.nodeBump := Node(s.bump, w, {0}, NIL, NIL)],
        nodeBump := s.nodeBump + NODE_BYTES),
                  1, InsRoot(Insertion(w, s.nodeBump, [])));
    assert f.pcs == s.pcs[1 := InsRoot(Insertion(w, s.nodeBump, []))];
  }

  lemma {:induction false} Reach1(e: Setup)
    requires e.Ok()
    ensures Reaches(e, S0(e), S1(e))
  {
    var o, w := S0(e), e.W();
    ReachesItself(e, o);
    GoFresh(e, o, o);
    var i := Insertion(w, e.At(0), []);
    var a := Goto(o.(bump := e.B(), nodes := map[e.At(0) := Node(e.A(), w, {0}, NIL, NIL)], nodeBump := e.At(40)), 1,
        InsRoot(i));
    GoInsRoot(e, o, a, 1, InsRoot(i));
    var b := Goto(a, 1, InsRootCas(i));
    GoInsRootCas(e, o, b, 1, InsRootCas(i));
    var d := Goto(b.(root := e.At(0), inserted := {e.A()}), 1, Inc(w, e.A(), {0}));
    GoInc(e, o, d, 1, Inc(w, e.A(), {0}));
    var f := DoInc(d, 1, Inc(w, e.A(), {0}));
    assert f.pcs == S1(e).pcs && f.live == S1(e).live;
  }

  /** The records of the two blocks. */
  ghost function Tree(e: Setup, m: Mask, n: Mask): Nodes {
    map[e.At(0) := Node(e.A(), e.W(), m, NIL, e.At(40)), e.At(40) := Node(e.B(), e.W(), n, NIL, NIL)]
  }

  /** Thread 1 also has the second block. */
  ghost function S2(e: Setup): State {
    State(e.At(0), Tree(e, {0}, {0}), NIL, map[], e.B() + e.W(), e.At(80), 2, AllIdle(),
          map[0 := Grant(e.A(), e.W(), {0}), 1 := Grant(e.B(), e.W(), {0})], 2, {e.A(), e.B()})
  }

  lemma {:induction false} Reach2(e: Setup)
    requires e.Ok()
    ensures Reaches(e, S0(e), S2(e))
  {
    Reach1(e);
    var o, s, w, p := S0(e), S1(e), e.W(), e.At(0);
    GoFresh(e, o, s);
    var i := Insertion(w, e.At(40), []);
    var a := Goto(s.(bump := e.B() + w, nodes := s.nodes[e.At(40) := Node(e.B(), w, {0}, NIL, NIL)],
        nodeBump := e.At(80)), 1, InsRoot(i));
    GoInsRoot(e, o, a, 1, InsRoot(i));
    var b := Goto(a, 1, InsAt(i, p));
    GoInsAt(e, o, b, 1, InsAt(i, p));
    var d := Goto(b, 1, InsCas(i, p));
    GoInsCas(e, o, d, 1, InsCas(i, p));
    var f := Goto(d.(nodes := d.nodes[p := Node(e.A(), w, {0}, NIL, e.At(40))], inserted := s.inserted + {e.B()}), 1,
        Inc(w, e.B(), {0}));
    GoInc(e, o, f, 1, Inc(w, e.B(), {0}));
    var g := DoInc(f, 1, Inc(w, e.B(), {0}));
    assert g.pcs == S2(e).pcs && g.live == S2(e).live && g.nodes == S2(e).nodes && g.inserted == S2(e).inserted;
  }

  /** The second block has been released. */
  ghost function S3(e: Setup): State {
    State(e.At(0), Tree(e, {0}, {}), e.At(80), map[e.At(80) := Slot(e.B(), e.W(), NIL)], e.B() + e.W(), e.At(104), 1,
        AllIdle(),
          map[0 := Grant(e.A(), e.W(), {0})], 2, {e.A(), e.B()})
  }

  /** The search for the block to release has found its record. */
  ghost function S3Found(e: Setup): State {
    Goto(S2(e).(live := S2(e).live[1 := Grant(e.B(), e.W(), {})]), 1, ClearLoad(ForFree(1, e.B(), {0}), e.At(40)))
  }

  lemma {:induction false} Reach3Found(e: Setup)
    requires e.Ok()
    ensures Reaches(e, S0(e), S3Found(e))
  {
    Reach2(e);
    var o, s, q := S0(e), S2(e), ForFree(1, e.B(), {0});
    GoFree(e, o, s, 1, 1, e.B());
    var a := Goto(s.(live := s.live[1 := Grant(e.B(), e.W(), {})]), 1, FindRoot(q));
    GoFindRoot(e, o, a, 1, FindRoot(q));
    var b := Goto(a, 1, FindAt(q, e.At(0)));
    GoFindAt(e, o, b, 1, FindAt(q, e.At(0)));
    var d := Goto(b, 1, FindAt(q, e.At(40)));
    GoFindAt(e, o, d, 1, FindAt(q, e.At(40)));
    assert Goto(d, 1, ClearLoad(q, e.At(40))) == S3Found(e);
  }

  lemma {:induction false} Reach3(e: Setup)
    requires e.Ok()
    ensures Reaches(e, S0(e), S3(e))
  {
    Reach3Found(e);
    var s := S3Found(e);
    GoRelease(e, S0(e), s, 1, ForFree(1, e.B(), {0}), e.At(40));
    assert s.pcs[1 := Idle] == S3(e).pcs && s.live - {1} == S3(e).live
        && WithMask(s.nodes, e.At(40), {}) == S3(e).nodes;
  }

  /** The first block has been released too: it is on top. */
  ghost function S4(e: Setup, pcs: map<nat, Pc>): State {
    State(e.At(0), Tree(e, {}, {}), e.At(104),
        map[e.At(80) := Slot(e.B(), e.W(), NIL), e.At(104) := Slot(e.A(), e.W(), e.At(80))],
          e.B() + e.W(), e.At(128), 0, pcs, map[], 2, {e.A(), e.B()})
  }

  lemma {:induction false} Reach4(e: Setup)
    requires e.Ok()
    ensures Reaches(e, S0(e), S4(e, AllIdle()))
  {
    Reach3(e);
    var o, s, q := S0(e), S3(e), ForFree(0, e.A(), {0});
    GoFree(e, o, s, 1, 0, e.A());
    var a := Goto(s.(live := s.live[0 := Grant(e.A(), e.W(), {})]), 1, FindRoot(q));
    GoFindRoot(e, o, a, 1, FindRoot(q));
    var b := Goto(a, 1, FindAt(q, e.At(0)));
    GoFindAt(e, o, b, 1, FindAt(q, e.At(0)));
    var d := Goto(b, 1, ClearLoad(q, e.At(0)));
    GoRelease(e, o, d, 1, q, e.At(0));
    var z := S4(e, AllIdle());
    assert d.pcs[1 := Idle] == z.pcs && d.live - {0} == z.live && WithMask(d.nodes, e.At(0), {}) == z.nodes;
  }

  /** Thread 1 has looked at the top and below it. */
  function Look(e: Setup): Pc {
    PopCas(e.W(), {0}, e.At(104), e.At(80))
  }

  /** Thread 2 has popped the top, found it too small, and not yet pushed it back. */
  function InHand(e: Setup): Pc {
    PushHead(Repush(e.V(), {0}), e.At(104))
  }

  ghost function S5(e: Setup): State {
    S4(e, Pcs(Look(e), InHand(e), Idle, Idle)).(head := e.At(80))
  }

  lemma {:induction false} Reach5(e: Setup)
    requires e.Ok()
    ensures Reaches(e, S0(e), S5(e))
  {
    Reach4(e);
    var o, s := S0(e), S4(e, AllIdle());
    GoLook(e, o, s, 1, e.small);
    var a := Goto(s, 1, Look(e));
    GoLook(e, o, a, 2, e.large);
    var pc := PopCas(e.V(), {0}, e.At(104), e.At(80));
    var b := Goto(a, 2, pc);
    GoPop(e, o, b, 2, pc);
    var d := Goto(b.(head := e.At(80)), 2, InHand(e));
    assert d.pcs == S5(e).pcs;
  }

  /** Thread 3 has been granted the block that was below the top. */
  ghost function S6(e: Setup, head: Ptr, next: Ptr, a: Pc, b: Pc): State {
    State(e.At(0), Tree(e, {}, {0})[e.At(128) := Node(e.B(), e.W(), {0}, NIL, NIL)], head,
          map[e.At(80) := Slot(e.B(), e.W(), NIL), e.At(104) := Slot(e.A(), e.W(), next)], e.B() + e.W(), e.At(168), 1,
          Pcs(a, b, Idle, Idle), map[2 := Grant(e.B(), e.W(), {0})], 3, {e.A(), e.B()})
  }

  lemma {:induction false} Reach6(e: Setup)
    requires e.Ok() && e.Roomy()
    ensures Reaches(e, S0(e), S6(e, NIL, e.At(80), Look(e), InHand(e)))
  {
    Reach5(e);
    var o, s, w := S0(e), S5(e), e.W();
    var pc, to := PopCas(w, {0}, e.At(80), NIL), NewNode(w, {0}, e.B(), w);
    GoLook(e, o, s, 3, e.small);
    var a := Goto(s, 3, pc);
    GoPop(e, o, a, 3, pc);
    var b := Goto(a.(head := NIL), 3, to);
    GoReuse(e, o, b, 3, to);
    var z := S6(e, NIL, e.At(80), Look(e), InHand(e));
    var d := DoInc(Merged(e, b, 3, to), 3, Inc(w, e.B(), {0}));
    var clear: Mask := {};
    assert clear + {0} == {0};
    assert d.pcs == z.pcs && d.live == z.live && d.nodes == z.nodes;
  }

  /** Thread 2 has pushed the small slot back, and thread 1 has popped it with an outdated next pointer. */
  ghost function S7(e: Setup): State {
    S6(e, e.At(80), NIL, NewNode(e.W(), {0}, e.A(), e.W()), Bump(e.V(), {0}))
  }

  lemma {:induction false} Reach6Pushed(e: Setup)
    requires e.Ok() && e.Roomy()
    ensures Reaches(e, S0(e), S6(e, e.At(104), NIL, Look(e), Bump(e.V(), {0})))
  {
    Reach6(e);
    var o, s := S0(e), S6(e, NIL, e.At(80), Look(e), InHand(e));
    GoPush(e, o, s, 2, Repush(e.V(), {0}), e.At(104));
    var a := Goto(s.(slots := Relinked(s.slots, e.At(104), NIL), head := e.At(104)), 2, Bump(e.V(), {0}));
    var z := S6(e, e.At(104), NIL, Look(e), Bump(e.V(), {0}));
    assert a.pcs == z.pcs && a.slots == z.slots;
  }

  lemma {:induction false} Reach7(e: Setup)
    requires e.Ok() && e.Roomy()
    ensures Reaches(e, S0(e), S7(e))
  {
    Reach6Pushed(e);
    var o, s := S0(e), S6(e, e.At(104), NIL, Look(e), Bump(e.V(), {0}));
    GoPop(e, o, s, 1, Look(e));
    var b := Goto(s.(head := e.At(80)), 1, NewNode(e.W(), {0}, e.A(), e.W()));
    assert b.pcs == S7(e).pcs;
  }

  /** Thread 4 is granted the block that thread 3 still owns. */
  lemma {:induction false} Reach8(e: Setup) returns (s: State)
    requires e.Ok() && e.Roomy()
    ensures Reaches(e, S0(e), s)
    ensures 2 in s.live && 3 in s.live && s.live[2] == s.live[3] == Grant(e.B(), e.W(), {0})
  {
    Reach7(e);
    var o, z, w := S0(e), S7(e), e.W();
    var pc, to := PopCas(w, {0}, e.At(80), NIL), NewNode(w, {0}, e.B(), w);
    GoLook(e, o, z, 4, e.small);
    var a := Goto(z, 4, pc);
    GoPop(e, o, a, 4, pc);
    var b := Goto(a.(head := NIL), 4, to);
    GoReuse(e, o, b, 4, to);
    s := DoInc(Merged(e, b, 4, to), 4, Inc(w, e.B(), {0}));
  }

  /** Any two requests that differ once aligned break safety, wherever two blocks of the smaller one and the
      six records of the run fit: some legal run of four threads ends with two grants of the same bytes. */
  lemma {:induction false} TwoSizesShareABlock(e: Setup) returns (moves: seq<Move>)
    requires e.Ok() && e.Roomy()
    ensures LegalRun(e.c, Initial(e.c, {1, 2, 3, 4}), moves) && AsksOnly(moves, {e.small, e.large})
    ensures var s := After(e.c, Initial(e.c, {1, 2, 3, 4}), moves);
            && !Safe(e.c, s)
            && exists g, h :: g in s.live && h in s.live && g != h && s.live[g] == s.live[h] && 0 < s.live[g].want
  {
    var s := Reach8(e);
    var states;
    states, moves :| Trace(e, states, moves) && states[0] == S0(e) && states[|moves|] == s;
    TraceIsRun(e, states, moves);
    assert !Apart(s.live[2].addr, s.live[2].want, s.live[3].addr, s.live[3].want);
    assert 2 in s.live && 3 in s.live && s.live[2] == s.live[3];
  }

  // ---- A shorter run that breaks the list ------------------------------------------------------------------

  /** Threads 2 and 3 have popped one slot each and will push them back. */
  ghost function S6Both(e: Setup): State {
    S4(e, Pcs(Look(e), InHand(e), PushHead(Repush(e.V(), {0}), e.At(80)), Idle)).(head := NIL)
  }

  lemma {:induction false} Reach6Both(e: Setup)
    requires e.Ok()
    ensures Reaches(e, S0(e), S6Both(e))
  {
    Reach5(e);
    var o, s, v := S0(e), S5(e), e.V();
    var pc := PopCas(v, {0}, e.At(80), NIL);
    GoLook(e, o, s, 3, e.large);
    var a := Goto(s, 3, pc);
    GoPop(e, o, a, 3, pc);
    var b := Goto(a.(head := NIL), 3, PushHead(Repush(v, {0}), e.At(80)));
    assert b.pcs == S6Both(e).pcs;
  }

  /** Thread 2 has pushed its slot, thread 1 has popped it and set the head to the slot thread 3 has in hand,
      and thread 3 has pushed that slot onto itself. */
  lemma {:induction false} Reach7Loop(e: Setup) returns (s: State)
    requires e.Ok()
    ensures Reaches(e, S0(e), s)
    ensures s.head == e.At(80) && e.At(80) in s.slots && s.slots[e.At(80)].next == e.At(80)
  {
    Reach6Both(e);
    var o, z, v := S0(e), S6Both(e), e.V();
    GoPush(e, o, z, 2, Repush(v, {0}), e.At(104));
    var a := Goto(z.(slots := Relinked(z.slots, e.At(104), NIL), head := e.At(104)), 2, Bump(v, {0}));
    GoPop(e, o, a, 1, Look(e));
    var b := Goto(a.(head := e.At(80)), 1, NewNode(e.W(), {0}, e.A(), e.W()));
    GoPush(e, o, b, 3, Repush(v, {0}), e.At(80));
    s := Goto(b.(slots := Relinked(b.slots, e.At(80), e.At(80))), 3, Bump(v, {0}));
  }

  lemma {:induction false} LoopHasNoChain(slots: Slots, p: Ptr, chain: seq<Ptr>)
    requires p != NIL && p in slots && slots[p].next == p
    ensures !Chain(slots, p, chain)
    decreases |chain|
  {
    if chain != [] { LoopHasNoChain(slots, p, chain[1..]); }
  }

  /** Where only the records of the two blocks and their slots fit, some legal run still ends with a free list
      that never ends. */
  lemma {:induction false} TwoSizesBreakTheList(e: Setup) returns (moves: seq<Move>)
    requires e.Ok()
    ensures LegalRun(e.c, Initial(e.c, {1, 2, 3, 4}), moves) && AsksOnly(moves, {e.small, e.large})
    ensures var s := After(e.c, Initial(e.c, {1, 2, 3, 4}), moves);
            !Safe(e.c, s) && forall chain :: !Chain(s.slots, s.head, chain)
  {
    var s := Reach7Loop(e);
    var states;
    states, moves :| Trace(e, states, moves) && states[0] == S0(e) && states[|moves|] == s;
    TraceIsRun(e, states, moves);
    forall chain ensures !Chain(s.slots, s.head, chain) { LoopHasNoChain(s.slots, s.head, chain); }
  }
}
