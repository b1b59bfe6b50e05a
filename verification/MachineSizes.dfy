/** Exactly which request sizes are safe in every interleaving. */
module MachineSizes {
  import opened Words
  import opened Layout
  import opened SearchTree
  import opened FreeStack
  import opened Machine
  import opened MachineInvariant
  import opened MachineMoves
  import opened MachineSafety
  import opened MachineUniform
  import opened MachineStalePop

  // ---- Where there is no room for two free blocks -----------------------------------------------------

  /** The slots a thread remembers were read from an empty list. */
  predicate FlatPc(pc: Pc) {
    && (pc.PopCas? ==> pc.next == NIL)
    && (pc.PushLink? || pc.PushCas? ==> pc.seenTop == NIL)
  }

  /** No slot has another below it, and every slot is for a block that is in the tree. */
  ghost predicate Flat(s: State) {
    && (forall p :: p in s.slots ==> s.slots[p].next == NIL && s.slots[p].addr in s.inserted)
    && (forall t {:trigger FlatPc(s.pcs[t])} :: t in s.pcs ==> FlatPc(s.pcs[t]))
  }

  /** A thread that has a slot in hand finds the list empty. */
  ghost predicate Alone(s: State) {
    forall t {:trigger PrivateSlot(s.pcs[t])} :: t in s.pcs && PrivateSlot(s.pcs[t]) != NIL ==> s.head == NIL
  }

  /** Two blocks of `lo` bytes do not fit the payload, or two blocks with their slots do not fit the metadata. */
  predicate Cramped(c: Config, lo: nat) {
    c.payloadEnd < c.payloadBase + 2 * lo || c.nodeEnd < c.nodeBase + 2 * NODE_BYTES + 2 * SLOT_BYTES
  }

  lemma {:induction false} TwoNodes(s: State, shape: Shape, a: nat, b: nat)
    requires TreeInv(s.root, s.nodes, shape, s.inserted, s.pcs) && a in s.inserted && b in s.inserted && a != b
    ensures 2 <= |s.nodes|
  {
    assert HasKey(s.nodes, shape, a) && HasKey(s.nodes, shape, b);
    var p :| p in Ptrs(shape) && p in s.nodes && s.nodes[p].addr == a;
    var q :| q in Ptrs(shape) && q in s.nodes && s.nodes[q].addr == b;
    assert {p, q} <= s.nodes.Keys;
    Cardinality({p, q}, s.nodes.Keys);
  }

  lemma {:induction false} Cardinality(a: set<nat>, b: set<nat>)
    requires a <= b
    ensures |a| <= |b|
  {
    assert b == a + (b - a);
  }

  lemma {:induction false} CrampedIsAlone(c: Config, s: State, v: View, lo: nat, hi: nat)
    requires v in Views(c, s) && Flat(s) && Sized(s, lo, hi) && Cramped(c, lo)
    ensures Alone(s)
  {
    forall t | t in s.pcs && PrivateSlot(s.pcs[t]) != NIL ensures s.head == NIL {
      if s.head != NIL { TwoFree(c, s, v, lo, hi, t); }
    }
  }

  /** A slot in hand and a slot on the list are two blocks, two records and two slots. */
  lemma {:induction false} TwoFree(c: Config, s: State, v: View, lo: nat, hi: nat, t: nat)
    requires v in Views(c, s) && Flat(s) && Sized(s, lo, hi)
    requires t in s.pcs && PrivateSlot(s.pcs[t]) != NIL && s.head != NIL
    ensures !Cramped(c, lo)
  {
    var p, q := PrivateSlot(s.pcs[t]), s.head;
    assert ListPc(s.slots, v.chain, s.pcs[t]) && BlockPc(s.nodes, s.slots, v.ext, v.st, t, s.pcs[t]);
    assert q in v.chain && q in s.slots && p in s.slots;
    assert SlotFree(s.slots, v.ext, v.st, q);
    var a, b := s.slots[p].addr, s.slots[q].addr;
    assert SlotAt(s.slots, p) == s.slots[p] && SlotAt(s.slots, q) == s.slots[q];
    assert Apart(a, v.ext[a], b, v.ext[b]);
    assert lo <= v.ext[a] && lo <= v.ext[b] by {
      assert Between(lo, s.slots[p].size, hi) && Between(lo, s.slots[q].size, hi);
    }
    TwoNodes(s, v.shape, a, b);
    assert {p, q} <= s.slots.Keys;
    Cardinality({p, q}, s.slots.Keys);
  }

  /** The slots stay as they are, or get one that is flat; blocks only join the tree. */
  lemma {:induction false} FlatMove(s: State, s1: State, t: nat, to: Pc)
    requires Flat(s) && t in s.pcs && s1.pcs == s.pcs && s.inserted <= s1.inserted && FlatPc(to)
    requires forall p :: p in s1.slots ==> s1.slots[p].next == NIL && s1.slots[p].addr in s1.inserted
    ensures Flat(Goto(s1, t, to))
  {
  }

  lemma {:induction false} FlatPop(c: Config, s: State, v: View, t: nat, pc: Pc)
    requires v in Views(c, s) && Flat(s) && t in s.pcs && s.pcs[t] == pc && (pc.PopHead? || pc.PopNext? || pc.PopCas?)
    ensures Flat(Exec(c, s, t)) && !StalePop(s, Run(t))
  {
    assert ListPc(s.slots, v.chain, pc) && FlatPc(pc);
    ExecPop(c, s, t, pc);
    if pc.PopHead? {
      FlatMove(s, s, t, if s.head == NIL then Bump(pc.want, pc.mask) else PopNext(pc.want, pc.mask, s.head));
    } else if pc.PopNext? {
      FlatMove(s, s, t, PopCas(pc.want, pc.mask, pc.top, SlotAt(s.slots, pc.top).next));
    } else if s.head != pc.top {
      FlatMove(s, s, t, PopHead(pc.want, pc.mask));
    } else {
      FlatMove(s, s.(head := pc.next), t, Taken(s.slots, pc, pc.top));
    }
  }

  lemma {:induction false} FlatPush(c: Config, s: State, v: View, t: nat, pc: Pc)
    requires v in Views(c, s) && Flat(s) && Alone(s) && t in s.pcs && s.pcs[t] == pc
             && (pc.PushHead? || pc.PushLink? || pc.PushCas?)
    ensures Flat(Exec(c, s, t))
  {
    assert ListPc(s.slots, v.chain, pc) && FlatPc(pc);
    assert PrivateSlot(s.pcs[t]) != NIL;
    ExecPush(c, s, t, pc);
    if pc.PushHead? {
      FlatMove(s, s, t, PushLink(pc.push, pc.slot, s.head));
    } else if pc.PushLink? {
      FlatMove(s, s.(slots := Relinked(s.slots, pc.slot, pc.seenTop)), t, PushCas(pc.push, pc.slot, pc.seenTop));
    } else {
      assert s.head == pc.seenTop == NIL;
      FlatMove(s, s.(head := pc.slot), t, AfterPush(pc.push));
    }
  }

  lemma {:induction false} FlatNewSlot(c: Config, s: State, v: View, t: nat, pc: Pc)
    requires v in Views(c, s) && Flat(s) && t in s.pcs && s.pcs[t] == pc && pc.NewSlot? && NoWrap(s, t)
    requires s.nodeBump + SLOT_BYTES <= c.nodeEnd
    ensures Flat(Exec(c, s, t))
  {
    assert TreePc(s.root, s.nodes, v.shape, pc);
    ExecAlloc(c, s, t, pc);
    var n := s.nodes[pc.cur];
    assert n.addr in s.inserted by { assert HasKey(s.nodes, v.shape, n.addr); }
    FlatMove(s, s.(slots := s.slots[s.nodeBump := Slot(n.addr, n.size, NIL)], nodeBump := s.nodeBump + SLOT_BYTES),
             t, PushHead(Release, s.nodeBump));
  }

  lemma {:induction false} FlatStart(s: State, t: nat, call: Call)
    requires Flat(s) && t in s.pcs
    ensures Flat(Begin(s, t, call))
  {
    var s1, to := Begin(s, t, call).(pcs := s.pcs), Begin(s, t, call).pcs[t];
    assert s1.inserted == s.inserted && s1.slots == s.slots && FlatPc(to);
    FlatMove(s, s1, t, to);
  }

  lemma {:induction false} FlatStep(c: Config, s: State, m: Move)
    requires Good(c, s) && Flat(s) && Alone(s) && Legal(s, m)
    ensures Flat(Do(c, s, m)) && !StalePop(s, m)
  {
    var v :| v in Views(c, s);
    match m {
      case Start(t, call) => FlatStart(s, t, call);
      case Run(t) => FlatRun(c, s, v, t, s.pcs[t]);
    }
  }

  lemma {:induction false} FlatRun(c: Config, s: State, v: View, t: nat, pc: Pc)
    requires v in Views(c, s) && Flat(s) && Alone(s) && t in s.pcs && s.pcs[t] == pc && !pc.Idle? && NoWrap(s, t)
    ensures Flat(Exec(c, s, t)) && !StalePop(s, Run(t))
  {
    if pc.PopHead? || pc.PopNext? || pc.PopCas? {
      FlatPop(c, s, v, t, pc);
    } else if pc.PushHead? || pc.PushLink? || pc.PushCas? {
      FlatPush(c, s, v, t, pc);
    } else if pc.NewSlot? && s.nodeBump + SLOT_BYTES <= c.nodeEnd {
      FlatNewSlot(c, s, v, t, pc);
    } else {
      var s1, to := ExecQuiet(c, s, t, pc);
      QuietIsFlat(c, s, t, pc);
      assert Exec(c, s, t).inserted == s1.inserted && Exec(c, s, t).pcs[t] == to;
      FlatMove(s, s1, t, to);
    }
  }

  /** The state after a move of `t` takes nothing out of the tree, and `t` remembers no slot. */
  ghost predicate Forgets(s: State, r: State, t: nat) {
    t in r.pcs && s.inserted <= r.inserted && FlatPc(r.pcs[t])
  }

  lemma {:induction false} InsertForgets(c: Config, s: State, t: nat, pc: Pc)
    requires t in s.pcs && s.pcs[t] == pc
    requires pc.InsRoot? || pc.InsRootCas? || pc.InsAt? || pc.InsCas? || pc.InsMerge?
    ensures Forgets(s, Exec(c, s, t), t)
  {
    ExecInsert(c, s, t, pc);
  }

  lemma {:induction false} AllocForgets(c: Config, s: State, t: nat, pc: Pc)
    requires c.WellFormed() && t in s.pcs && s.pcs[t] == pc && NoWrap(s, t)
    requires pc.Bump? || pc.NewNode? || pc.Inc? || (pc.NewSlot? && s.nodeBump + SLOT_BYTES > c.nodeEnd)
    ensures Forgets(s, Exec(c, s, t), t)
  {
    ExecAlloc(c, s, t, pc);
  }

  lemma {:induction false} FindForgets(c: Config, s: State, t: nat, pc: Pc)
    requires t in s.pcs && s.pcs[t] == pc && (pc.FindRoot? || pc.FindAt? || pc.Looked?)
    ensures Forgets(s, Exec(c, s, t), t)
  {
    ExecFind(c, s, t, pc);
  }

  lemma {:induction false} OwnerForgets(c: Config, s: State, t: nat, pc: Pc)
    requires t in s.pcs && s.pcs[t] == pc && (pc.ShareOr? || pc.ClearLoad? || pc.ClearCas? || pc.Dec?)
    ensures Forgets(s, Exec(c, s, t), t)
  {
    ExecOwner(c, s, t, pc);
  }

  /** Moves that touch no slot remember none, and take nothing out of the tree. */
  lemma {:induction false} QuietIsFlat(c: Config, s: State, t: nat, pc: Pc)
    requires c.WellFormed() && t in s.pcs && s.pcs[t] == pc && !pc.Idle? && NoWrap(s, t)
    requires !pc.PopHead? && !pc.PopNext? && !pc.PopCas? && !pc.PushHead? && !pc.PushLink? && !pc.PushCas?
    requires pc.NewSlot? ==> s.nodeBump + SLOT_BYTES > c.nodeEnd
    ensures Forgets(s, Exec(c, s, t), t)
  {
    if pc.InsRoot? || pc.InsRootCas? || pc.InsAt? || pc.InsCas? || pc.InsMerge? {
      InsertForgets(c, s, t, pc);
    } else if pc.Bump? || pc.NewNode? || pc.Inc? || pc.NewSlot? {
      AllocForgets(c, s, t, pc);
    } else if pc.FindRoot? || pc.FindAt? || pc.Looked? {
      FindForgets(c, s, t, pc);
    } else {
      OwnerForgets(c, s, t, pc);
    }
  }

  lemma {:induction false} CrampedStep(c: Config, s: State, m: Move, lo: nat, hi: nat)
    requires Good(c, s) && Flat(s) && Sized(s, lo, hi) && Cramped(c, lo) && Legal(s, m) && AsksWithin(m, lo, hi)
    ensures !StalePop(s, m) && Good(c, Do(c, s, m)) && Flat(Do(c, s, m)) && Sized(Do(c, s, m), lo, hi)
  {
    var v :| v in Views(c, s);
    CrampedIsAlone(c, s, v, lo, hi);
    FlatStep(c, s, m);
    SizedStep(c, s, m, lo, hi);
    StepGood(c, s, m);
  }

  /** Where two free blocks do not fit, no pop is ever stale, whatever the sizes. */
  lemma {:induction false} CrampedRunsAreFresh(c: Config, s: State, moves: seq<Move>, lo: nat, hi: nat)
    requires Good(c, s) && Flat(s) && Sized(s, lo, hi) && Cramped(c, lo) && LegalRun(c, s, moves)
             && AskWithin(moves, lo, hi)
    ensures NoStalePops(c, s, moves)
    decreases |moves|
  {
    if moves != [] {
      CrampedStep(c, s, moves[0], lo, hi);
      CrampedRunsAreFresh(c, Do(c, s, moves[0]), moves[1..], lo, hi);
    }
  }

  lemma {:induction false} SafeWhenCramped(c: Config, threads: set<nat>, moves: seq<Move>, lo: nat, hi: nat)
    requires c.WellFormed() && Cramped(c, lo) && LegalRun(c, Initial(c, threads), moves) && AskWithin(moves, lo, hi)
    ensures Safe(c, After(c, Initial(c, threads), moves))
  {
    InitialGood(c, threads);
    CrampedRunsAreFresh(c, Initial(c, threads), moves, lo, hi);
    SafeWithoutStalePops(c, threads, moves);
  }

  // ---- The exact condition -------------------------------------------------------------------------------

  /** The sizes that an allocation can ask for without wrapping around when it is aligned. */
  predicate Askable(sizes: set<nat>) {
    forall x :: x in sizes ==> 0 < x <= WORD - 8
  }

  /** Every interleaving of any number of threads that ask for these sizes only is safe. */
  ghost predicate AlwaysSafe(c: Config, sizes: set<nat>) {
    forall threads: set<nat>, moves :: LegalRun(c, Initial(c, threads), moves) && AsksOnly(moves, sizes)
      ==> Safe(c, After(c, Initial(c, threads), moves))
  }

  /** Two of the sizes differ once aligned, and there is room for two blocks of the smaller one and for the
      record and the slot of each. */
  ghost predicate Mixed(c: Config, sizes: set<nat>) {
    && c.nodeBase + 128 <= c.nodeEnd
    && exists x, y :: x in sizes && y in sizes && Mixes(c, x, y)
  }

  predicate Mixes(c: Config, x: nat, y: nat) {
    AlignUp(x, 8) < AlignUp(y, 8) && c.payloadBase + 2 * AlignUp(x, 8) <= c.payloadEnd
  }

  lemma {:induction false} Least(sizes: set<nat>) returns (m: nat)
    requires sizes != {}
    ensures m in sizes && forall x :: x in sizes ==> AlignUp(m, 8) <= AlignUp(x, 8)
    decreases |sizes|
  {
    m :| m in sizes;
    if sizes != {m} {
      var k := Least(sizes - {m});
      assert forall x :: x in sizes ==> x == m || x in sizes - {m};
      if AlignUp(k, 8) < AlignUp(m, 8) { m := k; }
    }
  }

  lemma {:induction false} BoundsOf(moves: seq<Move>, sizes: set<nat>, lo: nat, hi: nat)
    requires AsksOnly(moves, sizes) && forall x :: x in sizes ==> Between(lo, AlignUp(x, 8), hi)
    ensures AskWithin(moves, lo, hi)
  {
    forall i | 0 <= i < |moves| ensures AsksWithin(moves[i], lo, hi) { assert Asks(moves[i], sizes); }
  }

  lemma {:induction false} AlignedBelowWord(x: nat)
    ensures AlignUp(x, 8) < WORD
  {
  }

  /** One aligned size, or no room for two free blocks. */
  lemma {:induction false} SafeUnlessMixed(c: Config, sizes: set<nat>, threads: set<nat>, moves: seq<Move>)
    requires c.WellFormed() && !Mixed(c, sizes)
    requires LegalRun(c, Initial(c, threads), moves) && AsksOnly(moves, sizes)
    ensures Safe(c, After(c, Initial(c, threads), moves))
  {
    var lo := 0;
    if sizes != {} {
      var m := Least(sizes);
      lo := AlignUp(m, 8);
      if forall x :: x in sizes ==> AlignUp(x, 8) == lo {
        BoundsOf(moves, sizes, lo, lo);
        SafeWithOneSize(c, threads, moves, lo);
        return;
      }
      var y :| y in sizes && AlignUp(y, 8) != lo;
      assert Mixes(c, m, y) || c.payloadEnd < c.payloadBase + 2 * lo;
      assert Cramped(c, lo);
    } else {
      BoundsOf(moves, sizes, 0, 0);
      SafeWithOneSize(c, threads, moves, 0);
      return;
    }
    forall x | x in sizes ensures Between(lo, AlignUp(x, 8), WORD) { AlignedBelowWord(x); }
    BoundsOf(moves, sizes, lo, WORD);
    SafeWhenCramped(c, threads, moves, lo, WORD);
  }

  /** A set of request sizes is safe in every interleaving if and only if no two of them differ once aligned,
      or there is no room for two blocks of the smaller of any two that do. */
  lemma {:induction false} SafeExactlyUnlessMixed(c: Config, sizes: set<nat>)
    requires c.WellFormed() && Askable(sizes)
    ensures AlwaysSafe(c, sizes) <==> !Mixed(c, sizes)
  {
    if Mixed(c, sizes) {
      var x, y :| x in sizes && y in sizes && Mixes(c, x, y);
      var moves := TwoSizesBreakTheList(Setup(c, x, y));
      assert AsksOnly(moves, sizes) by {
        forall i | 0 <= i < |moves| ensures Asks(moves[i], sizes) { assert Asks(moves[i], {x, y}); }
      }
      assert !AlwaysSafe(c, sizes);
    } else {
      forall threads: set<nat>, moves | LegalRun(c, Initial(c, threads), moves) && AsksOnly(moves, sizes)
        ensures Safe(c, After(c, Initial(c, threads), moves))
      {
        SafeUnlessMixed(c, sizes, threads, moves);
      }
    }
  }

  ghost predicate OneSize(sizes: set<nat>) {
    forall x, y :: x in sizes && y in sizes ==> AlignUp(x, 8) == AlignUp(y, 8)
  }

  /** On a super-block as `New` lays it out, with sizes of which two blocks fit: one aligned size exactly. */
  lemma {:induction false} SafeExactlyWithOneSize(length: nat, base: nat, sizes: set<nat>)
    requires 0 < base && base % 4096 == 0 && base + (if length == 0 then DEFAULT_LENGTH else length) < WORD
    requires NewLayout(length, base).Ok? && Askable(sizes)
    requires var c := NewLayout(length, base).value;
             forall x :: x in sizes ==> c.payloadBase + 2 * AlignUp(x, 8) <= c.payloadEnd
    ensures AlwaysSafe(NewLayout(length, base).value, sizes) <==> OneSize(sizes)
  {
    var c := NewLayout(length, base).value;
    SafeExactlyUnlessMixed(c, sizes);
    if !OneSize(sizes) {
      var x, y :| x in sizes && y in sizes && AlignUp(x, 8) != AlignUp(y, 8);
      assert Mixes(c, x, y) || Mixes(c, y, x);
    }
  }
}
