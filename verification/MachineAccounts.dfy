/** What callers have of a block follows from the calls they made and the order in which they ended.

    A history notes each call when it starts, and for each block handed out how many bytes were asked for and
    which owner bits its callers have.  It reads nothing of the machine but which calls have ended.
 */
module MachineAccounts {
  import opened Words
  import opened Layout
  import opened SearchTree
  import opened FreeStack
  import opened Machine
  import opened MachineInvariant
  import opened MachineMoves
  import opened MachineCalls
  import opened MachineOwners
  import opened MachineSafety
  import opened MachineMasks

  datatype Account = Account(want: nat, bits: Mask)

  datatype History = History(calls: map<nat, Call>, accounts: map<nat, Account>)

  /** A move is noted.  A free takes its bits off when it starts; an allocation that was granted opens an
      account with the owners it named, and a share adds the owners it named, when they end. */
  function Note(h: History, s: State, m: Move, s1: State): History
  {
    match m
    case Start(t, call) =>
      History(h.calls[t := call], if call.CallFree? then Less(h.accounts, call.grant, call.bits) else h.accounts)
    case Run(t) =>
      if t in s1.pcs && s1.pcs[t].Idle? && t in h.calls
      then h.(accounts := Ended(h.accounts, h.calls[t], s.nextGrant, s1.nextGrant)) else h
  }

  function Less(accounts: map<nat, Account>, g: nat, bits: Mask): map<nat, Account> {
    if g in accounts then accounts[g := accounts[g].(bits := accounts[g].bits - bits)] else accounts
  }

  function Ended(accounts: map<nat, Account>, call: Call, next: nat, next1: nat): map<nat, Account> {
    match call
    case CallAlloc(size, mask) =>
      if next1 != next then accounts[next := Account(AlignUp(size, 8), NormalizeMask(mask))] else accounts
    case CallShare(g, _, bits) =>
      if g in accounts then accounts[g := accounts[g].(bits := accounts[g].bits + NormalizeMask(bits))] else accounts
    case _ => accounts
  }

  ghost function Noted(c: Config, s: State, moves: seq<Move>, h: History): History
    requires LegalRun(c, s, moves)
    decreases |moves|
  {
    if moves == [] then h else Noted(c, Do(c, s, moves[0]), moves[1..], Note(h, s, moves[0], Do(c, s, moves[0])))
  }

  // ---- What a thread is doing is what it was called for ----------------------------------------------------

  predicate AllocFits(want: nat, mask: Mask, call: Call) {
    call.CallAlloc? && want == AlignUp(call.size, 8) && mask == call.mask
  }

  predicate GrantFits(want: nat, mask: Mask, call: Call) {
    call.CallAlloc? && want == AlignUp(call.size, 8) && mask == NormalizeMask(call.mask)
  }

  predicate SearchFits(q: Search, call: Call) {
    match q
    case ForShare(g, _, hold, bits) =>
      call.CallShare? && call.grant == g && call.hold == hold && bits == NormalizeMask(call.bits)
    case ForFree(g, _, bits) => call == CallFree(g, bits)
    case ForLookup(_, _) => call.CallLookup?
  }

  predicate PushFits(push: Push, call: Call) {
    match push
    case Repush(want, mask) => AllocFits(want, mask, call)
    case Release => call.CallFree?
  }

  predicate PcFits(nodes: Nodes, pc: Pc, call: Call) {
    match pc
    case Idle => true
    case PopHead(want, mask) => AllocFits(want, mask, call)
    case PopNext(want, mask, _) => AllocFits(want, mask, call)
    case PopCas(want, mask, _, _) => AllocFits(want, mask, call)
    case Bump(want, mask) => AllocFits(want, mask, call)
    case NewNode(want, mask, _, _) => AllocFits(want, mask, call)
    case PushHead(push, _) => PushFits(push, call)
    case PushLink(push, _, _) => PushFits(push, call)
    case PushCas(push, _, _) => PushFits(push, call)
    case InsRoot(ins) => GrantFits(ins.want, NodeAt(nodes, ins.node).mask, call)
    case InsRootCas(ins) => GrantFits(ins.want, NodeAt(nodes, ins.node).mask, call)
    case InsAt(ins, _) => GrantFits(ins.want, NodeAt(nodes, ins.node).mask, call)
    case InsCas(ins, _) => GrantFits(ins.want, NodeAt(nodes, ins.node).mask, call)
    case InsMerge(ins, _) => GrantFits(ins.want, NodeAt(nodes, ins.node).mask, call)
    case Inc(want, _, mask) => GrantFits(want, mask, call)
    case FindRoot(q) => SearchFits(q, call)
    case FindAt(q, _) => SearchFits(q, call)
    case ShareOr(q, _) => SearchFits(q, call)
    case ClearLoad(q, _) => SearchFits(q, call)
    case ClearCas(q, _, _) => SearchFits(q, call)
    case Looked(_, _, _) => call.CallLookup?
    case NewSlot(_) => call.CallFree?
    case Dec => call.CallFree?
  }

  ghost predicate Fitting(nodes: Nodes, pcs: map<nat, Pc>, calls: map<nat, Call>) {
    forall t {:trigger pcs[t]} :: t in pcs && pcs[t] != Idle ==> t in calls && PcFits(nodes, pcs[t], calls[t])
  }

  /** A share in progress has borrowed the bit that makes its caller a holder. */
  ghost predicate Lent(pcs: map<nat, Pc>, t: nat, g: nat, b: nat) {
    t in pcs && CommittedTo(pcs[t], g) && pcs[t].search.ForShare? && pcs[t].search.hold == b
  }

  ghost predicate Has(live: map<nat, Grant>, pcs: map<nat, Pc>, g: nat, b: nat) {
    g in live && (b in live[g].held || exists t :: Lent(pcs, t, g, b))
  }

  ghost predicate AccountOk(live: map<nat, Grant>, pcs: map<nat, Pc>, g: nat, a: Account) {
    g in live && live[g].want == a.want && forall b :: b in a.bits <==> Has(live, pcs, g, b)
  }

  ghost predicate Balanced(live: map<nat, Grant>, pcs: map<nat, Pc>, accounts: map<nat, Account>) {
    forall g {:trigger live[g]} :: g in live ==> g in accounts && AccountOk(live, pcs, g, accounts[g])
  }

  ghost predicate Booked(s: State, h: History) {
    Fitting(s.nodes, s.pcs, h.calls) && Balanced(s.live, s.pcs, h.accounts)
  }

  // ---- Each move ---------------------------------------------------------------------------------------------

  /** Masks change only in the tree, where no insertion in progress has its record. */
  lemma {:induction false} FittingFrame(root: Ptr, a: Nodes, b: Nodes, shape: Shape, inserted: set<nat>,
                                        pcs: map<nat, Pc>, calls: map<nat, Call>)
    requires TreeInv(root, a, shape, inserted, pcs) && Fitting(a, pcs, calls)
    requires forall p :: p in a ==> p in b && (p !in Ptrs(shape) ==> b[p].mask == a[p].mask)
    ensures Fitting(b, pcs, calls)
  {
    forall t | t in pcs && pcs[t] != Idle ensures t in calls && PcFits(b, pcs[t], calls[t]) {
      assert TreePc(root, a, shape, pcs[t]);
      assert PcFits(a, pcs[t], calls[t]);
    }
  }

  ghost predicate LentByOther(pcs: map<nat, Pc>, t: nat, g: nat, b: nat) {
    exists u :: u != t && Lent(pcs, u, g, b)
  }

  lemma {:induction false} LentElsewhere(pcs: map<nat, Pc>, pcs1: map<nat, Pc>, t: nat, to: Pc, g: nat, b: nat)
    requires t in pcs && pcs1 == pcs[t := to]
    ensures LentByOther(pcs, t, g, b) <==> LentByOther(pcs1, t, g, b)
    ensures (exists u :: Lent(pcs, u, g, b)) <==> Lent(pcs, t, g, b) || LentByOther(pcs, t, g, b)
    ensures (exists u :: Lent(pcs1, u, g, b)) <==> Lent(pcs1, t, g, b) || LentByOther(pcs1, t, g, b)
  {
    if LentByOther(pcs, t, g, b) {
      var u :| u != t && Lent(pcs, u, g, b);
      assert Lent(pcs1, u, g, b);
    }
    if LentByOther(pcs1, t, g, b) {
      var u :| u != t && Lent(pcs1, u, g, b);
      assert Lent(pcs, u, g, b);
    }
  }

  /** A thread moves on and the accounts stand still. */
  lemma {:induction false} BalancedMove(live: map<nat, Grant>, pcs: map<nat, Pc>, accounts: map<nat, Account>, t: nat,
                                        to: Pc)
    requires Balanced(live, pcs, accounts) && t in pcs
    requires forall g, b :: Lent(pcs[t := to], t, g, b) <==> Lent(pcs, t, g, b)
    ensures Balanced(live, pcs[t := to], accounts)
  {
    var pcs1 := pcs[t := to];
    forall g | g in live ensures g in accounts && AccountOk(live, pcs1, g, accounts[g]) {
      assert AccountOk(live, pcs, g, accounts[g]);
      forall b ensures Has(live, pcs, g, b) <==> Has(live, pcs1, g, b) {
        LentElsewhere(pcs, pcs1, t, to, g, b);
      }
    }
  }

  /** Who is lent what by a thread that moves on. */
  lemma {:induction false} SameLoans(pcs: map<nat, Pc>, t: nat, to: Pc)
    requires t in pcs
    requires Committed(pcs[t]) && pcs[t].search.ForShare? ==> Committed(to) && to.search == pcs[t].search
    requires Committed(to) && to.search.ForShare? ==> Committed(pcs[t]) && to.search == pcs[t].search
    ensures forall g, b :: Lent(pcs[t := to], t, g, b) <==> Lent(pcs, t, g, b)
  {
  }

  /** Thread `t`, called for `call`, moves on: nothing is handed out, no share ends, and masks change only in
      the tree. */
  ghost predicate Advances(s: State, shape: Shape, s1: State, t: nat, call: Call) {
    && t in s.pcs && t in s1.pcs && s1.pcs == s.pcs[t := s1.pcs[t]]
    && s1.live == s.live && s1.nextGrant == s.nextGrant
    && (forall p :: p in s.nodes ==> p in s1.nodes && (p !in Ptrs(shape) ==> s1.nodes[p].mask == s.nodes[p].mask))
    && PcFits(s1.nodes, s1.pcs[t], call) && (s1.pcs[t] == Idle ==> !call.CallShare?)
    && SameLoan(s.pcs[t], s1.pcs[t])
  }

  predicate SameLoan(pc: Pc, to: Pc) {
    && (Committed(pc) && pc.search.ForShare? ==> Committed(to) && to.search == pc.search)
    && (Committed(to) && to.search.ForShare? ==> Committed(pc) && to.search == pc.search)
  }

  lemma {:induction false} BookedMove(c: Config, s: State, v: View, h: History, s1: State, t: nat)
    requires v in Views(c, s) && Booked(s, h) && t in s.pcs && s.pcs[t] != Idle && t in h.calls
    requires Advances(s, v.shape, s1, t, h.calls[t])
    ensures Booked(s1, Note(h, s, Run(t), s1))
  {
    FittingFrame(s.root, s.nodes, s1.nodes, v.shape, s.inserted, s.pcs, h.calls);
    SameLoans(s.pcs, t, s1.pcs[t]);
    BalancedMove(s.live, s.pcs, h.accounts, t, s1.pcs[t]);
    assert Note(h, s, Run(t), s1) == h;
    forall u | u in s1.pcs && s1.pcs[u] != Idle ensures u in h.calls && PcFits(s1.nodes, s1.pcs[u], h.calls[u]) {
      if u != t { assert PcFits(s1.nodes, s.pcs[u], h.calls[u]); }
    }
  }

  lemma {:induction false} PopAdvances(c: Config, s: State, shape: Shape, t: nat, pc: Pc, call: Call)
    requires t in s.pcs && s.pcs[t] == pc && PcFits(s.nodes, pc, call) && (pc.PopHead? || pc.PopNext? || pc.PopCas?)
    ensures Advances(s, shape, Exec(c, s, t), t, call)
  {
    ExecPop(c, s, t, pc);
  }

  lemma {:induction false} PushAdvances(c: Config, s: State, shape: Shape, t: nat, pc: Pc, call: Call)
    requires t in s.pcs && s.pcs[t] == pc && PcFits(s.nodes, pc, call) && (pc.PushHead? || pc.PushLink? || pc.PushCas?)
    ensures Advances(s, shape, Exec(c, s, t), t, call)
  {
    ExecPush(c, s, t, pc);
  }

  lemma {:induction false} AllocAdvances(c: Config, s: State, shape: Shape, t: nat, pc: Pc, call: Call)
    requires c.WellFormed() && t in s.pcs && s.pcs[t] == pc && PcFits(s.nodes, pc, call) && NoWrap(s, t)
    requires (pc.Bump? || pc.NewNode? || pc.NewSlot?) && s.nodeBump !in s.nodes
    ensures Advances(s, shape, Exec(c, s, t), t, call)
  {
    if pc.Bump? {
      ExecBump(c, s, t, pc);
    } else if pc.NewNode? {
      ExecNewNode(c, s, t, pc);
    } else {
      ExecNewSlot(c, s, t, pc);
    }
  }

  lemma {:induction false} InsertAdvances(c: Config, s: State, shape: Shape, t: nat, pc: Pc, call: Call)
    requires t in s.pcs && s.pcs[t] == pc && PcFits(s.nodes, pc, call)
    requires pc.InsRoot? || pc.InsRootCas? || pc.InsAt? || pc.InsCas? || pc.InsMerge?
    requires pc.ins.node in s.nodes && pc.ins.node !in Ptrs(shape)
    requires pc.InsAt? || pc.InsCas? || pc.InsMerge? ==> pc.cur in s.nodes && pc.cur in Ptrs(shape)
    ensures Advances(s, shape, Exec(c, s, t), t, call)
  {
    InsertLeaves(c, s, t, pc);
    InsertMasks(c, s, shape, t, pc, call);
  }

  lemma {:induction false} InsertMasks(c: Config, s: State, shape: Shape, t: nat, pc: Pc, call: Call)
    requires t in s.pcs && s.pcs[t] == pc && PcFits(s.nodes, pc, call)
    requires pc.InsRoot? || pc.InsRootCas? || pc.InsAt? || pc.InsCas? || pc.InsMerge?
    requires pc.ins.node in s.nodes && pc.ins.node !in Ptrs(shape)
    requires pc.InsAt? || pc.InsCas? || pc.InsMerge? ==> pc.cur in s.nodes && pc.cur in Ptrs(shape)
    ensures var s1 := Exec(c, s, t);
            && t in s1.pcs && PcFits(s1.nodes, s1.pcs[t], call)
            && forall p :: p in s.nodes ==>
                 p in s1.nodes && (p !in Ptrs(shape) ==> s1.nodes[p].mask == s.nodes[p].mask)
  {
    ExecInsert(c, s, t, pc);
  }

  lemma {:induction false} InsertLeaves(c: Config, s: State, t: nat, pc: Pc)
    requires t in s.pcs && s.pcs[t] == pc && (pc.InsRoot? || pc.InsRootCas? || pc.InsAt? || pc.InsCas? || pc.InsMerge?)
    ensures var s1 := Exec(c, s, t);
            && s1.live == s.live && s1.nextGrant == s.nextGrant
            && t in s1.pcs && s1.pcs == s.pcs[t := s1.pcs[t]] && !s1.pcs[t].Idle? && !Committed(s1.pcs[t])
  {
    ExecInsert(c, s, t, pc);
  }

  /** The search hits, or has somewhere to go. */
  predicate GoesOn(s: State, pc: Pc)
    requires pc.FindRoot? || pc.FindAt?
  {
    match pc
    case FindRoot(_) => s.root != NIL
    case FindAt(q, cur) => NodeAt(s.nodes, cur).addr == q.addr || Child(NodeAt(s.nodes, cur), q.addr) != NIL
  }

  lemma {:induction false} FindAdvances(c: Config, s: State, shape: Shape, t: nat, pc: Pc, call: Call)
    requires t in s.pcs && s.pcs[t] == pc && PcFits(s.nodes, pc, call) && (pc.FindRoot? || pc.FindAt? || pc.Looked?)
    requires !pc.Looked? && !pc.search.ForLookup? ==> GoesOn(s, pc)
    ensures Advances(s, shape, Exec(c, s, t), t, call)
  {
    ExecFind(c, s, t, pc);
    if !pc.Looked? {
      if GoesOn(s, pc) { HitAdvances(s, shape, t, pc, call); } else { MissAdvances(s, shape, t, pc.search, call); }
    }
  }

  lemma {:induction false} HitAdvances(s: State, shape: Shape, t: nat, pc: Pc, call: Call)
    requires t in s.pcs && s.pcs[t] == pc && PcFits(s.nodes, pc, call) && (pc.FindRoot? || pc.FindAt?)
    ensures pc.FindRoot? ==> Advances(s, shape, Goto(s, t, FindAt(pc.search, s.root)), t, call)
    ensures pc.FindAt? ==> Advances(s, shape, Hit(s, t, pc.search, pc.cur), t, call)
    ensures pc.FindAt? ==>
              Advances(s, shape, Goto(s, t, FindAt(pc.search, Child(NodeAt(s.nodes, pc.cur), pc.search.addr))), t, call)
  {
  }

  lemma {:induction false} MissAdvances(s: State, shape: Shape, t: nat, q: Search, call: Call)
    requires t in s.pcs && !Committed(s.pcs[t]) && q.ForLookup? && SearchFits(q, call)
    ensures Advances(s, shape, Miss(s, t, q), t, call)
  {
  }

  /** Everything but the end of an allocation and the moves that touch owners. */
  lemma {:induction false} BookedQuiet(c: Config, s: State, v: View, h: History, t: nat, pc: Pc)
    requires v in Views(c, s) && Booked(s, h) && t in s.pcs && s.pcs[t] == pc && !pc.Idle? && NoWrap(s, t)
    requires !pc.Inc? && !pc.ShareOr? && !pc.ClearLoad? && !pc.ClearCas? && !pc.Dec?
    ensures Booked(Exec(c, s, t), Note(h, s, Run(t), Exec(c, s, t)))
  {
    assert PcFits(s.nodes, pc, h.calls[t]);
    if pc.PopHead? || pc.PopNext? || pc.PopCas? {
      PopAdvances(c, s, v.shape, t, pc, h.calls[t]);
    } else if pc.PushHead? || pc.PushLink? || pc.PushCas? {
      PushAdvances(c, s, v.shape, t, pc, h.calls[t]);
    } else if pc.Bump? || pc.NewNode? || pc.NewSlot? {
      assert s.nodeBump in s.nodes ==> RecordIn(c, s.nodeBump, NODE_BYTES, s.nodeBump);
      AllocAdvances(c, s, v.shape, t, pc, h.calls[t]);
    } else if pc.FindRoot? || pc.FindAt? || pc.Looked? {
      if !pc.Looked? && !pc.search.ForLookup? { FoundOrOn(c, s, v, t, pc); }
      FindAdvances(c, s, v.shape, t, pc, h.calls[t]);
    } else {
      assert TreePc(s.root, s.nodes, v.shape, pc);
      if pc.InsAt? || pc.InsCas? { OnPathIn(s.nodes, v.shape, s.nodes[pc.ins.node].addr, pc.cur); }
      InsertAdvances(c, s, v.shape, t, pc, h.calls[t]);
    }
    BookedMove(c, s, v, h, Exec(c, s, t), t);
  }

  // ---- Owners change --------------------------------------------------------------------------------------------

  /** The accounts after a block was handed out by the call of thread `t`. */
  lemma {:induction false} BookedInc(c: Config, s: State, v: View, h: History, t: nat, pc: Pc)
    requires v in Views(c, s) && Booked(s, h) && t in s.pcs && s.pcs[t] == pc && pc.Inc?
    ensures Booked(DoInc(s, t, pc), Note(h, s, Run(t), DoInc(s, t, pc)))
  {
    assert PcFits(s.nodes, pc, h.calls[t]);
    var n, s1 := s.nextGrant, DoInc(s, t, pc);
    var h1 := Note(h, s, Run(t), s1);
    assert n in s.live ==> GrantOk(n, s.inserted, v.ext, v.st, n, s.live[n]);
    assert h1.accounts == h.accounts[n := Account(pc.want, pc.mask)] && h1.calls == h.calls;
    NoLoans(c, s, v, n);
    SameLoans(s.pcs, t, Idle);
    BalancedMove(s.live, s.pcs, h.accounts, t, Idle);
    BalancedNew(s.live, s1.pcs, h.accounts, n, Grant(pc.addr, pc.want, pc.mask));
    forall u | u in s1.pcs && s1.pcs[u] != Idle ensures u in h.calls && PcFits(s1.nodes, s1.pcs[u], h.calls[u]) {
      assert PcFits(s.nodes, s.pcs[u], h.calls[u]);
    }
  }

  /** Nobody has a call on a grant that does not exist. */
  lemma {:induction false} NoLoans(c: Config, s: State, v: View, g: nat)
    requires v in Views(c, s) && g !in s.live
    ensures forall u :: u in s.pcs ==> !CommittedTo(s.pcs[u], g)
  {
    forall u | u in s.pcs ensures !CommittedTo(s.pcs[u], g) { assert CallOk(s.nodes, v.shape, s.live, s.pcs[u]); }
  }

  lemma {:induction false} BalancedNew(live: map<nat, Grant>, pcs: map<nat, Pc>, accounts: map<nat, Account>, n: nat,
      b: Grant)
    requires Balanced(live, pcs, accounts) && n !in live && forall u :: u in pcs ==> !CommittedTo(pcs[u], n)
    ensures Balanced(live[n := b], pcs, accounts[n := Account(b.want, b.held)])
  {
    var live1 := live[n := b];
    forall g | g in live1 ensures AccountOk(live1, pcs, g, accounts[n := Account(b.want, b.held)][g]) {
      if g != n {
        assert AccountOk(live, pcs, g, accounts[g]);
        assert forall x :: Has(live1, pcs, g, x) <==> Has(live, pcs, g, x);
      }
    }
  }

  /** The holders of one block change, and its account with them. */
  lemma {:induction false} BalancedChange(live: map<nat, Grant>, pcs: map<nat, Pc>, accounts: map<nat, Account>, t: nat,
                                          to: Pc, g: nat, held: Mask, bits: Mask)
    requires Balanced(live, pcs, accounts) && t in pcs && g in live && g in accounts
    requires forall k, b :: k != g ==> (Lent(pcs[t := to], t, k, b) <==> Lent(pcs, t, k, b))
    requires forall b :: b in bits <==> b in held || Lent(pcs[t := to], t, g, b) || LentByOther(pcs, t, g, b)
    ensures Balanced(live[g := live[g].(held := held)], pcs[t := to], accounts[g := accounts[g].(bits := bits)])
  {
    var live1, pcs1 := live[g := live[g].(held := held)], pcs[t := to];
    var accounts1 := accounts[g := accounts[g].(bits := bits)];
    forall k | k in live1 ensures k in accounts1 && AccountOk(live1, pcs1, k, accounts1[k]) {
      assert AccountOk(live, pcs, k, accounts[k]);
      forall b ensures b in accounts1[k].bits <==> Has(live1, pcs1, k, b) {
        LentElsewhere(pcs, pcs1, t, to, k, b);
        if k != g { assert Has(live, pcs, k, b) <==> Has(live1, pcs1, k, b); }
      }
    }
  }

  /** What the account of a call's block says, taken apart by who has each bit. */
  lemma {:induction false} AccountParts(s: State, h: History, t: nat, g: nat, b: nat)
    requires Booked(s, h) && t in s.pcs && g in s.live
    ensures g in h.accounts
    ensures b in h.accounts[g].bits <==> b in s.live[g].held || Lent(s.pcs, t, g, b) || LentByOther(s.pcs, t, g, b)
  {
    assert AccountOk(s.live, s.pcs, g, h.accounts[g]);
    assert b in h.accounts[g].bits <==> Has(s.live, s.pcs, g, b);
    LentElsewhere(s.pcs, s.pcs[t := s.pcs[t]], t, s.pcs[t], g, b);
  }

  lemma {:induction false} FittingShare(c: Config, s: State, v: View, h: History, t: nat, pc: Pc)
    requires v in Views(c, s) && Booked(s, h) && t in s.pcs && s.pcs[t] == pc && pc.ShareOr?
    ensures pc.search.ForShare? && pc.search.grant in s.live && t in h.calls && PcFits(s.nodes, pc, h.calls[t])
    ensures Fitting(WithMask(s.nodes, pc.cur, NodeAt(s.nodes, pc.cur).mask + pc.search.bits), s.pcs[t := Idle], h.calls)
  {
    assert PcFits(s.nodes, pc, h.calls[t]) && TreePc(s.root, s.nodes, v.shape, pc);
    CallKnows(s.root, s.nodes, v.shape, s.nextGrant, s.inserted, v.ext, v.st, s.live, s.pcs, t, pc);
    var b := WithMask(s.nodes, pc.cur, NodeAt(s.nodes, pc.cur).mask + pc.search.bits);
    FittingFrame(s.root, s.nodes, b, v.shape, s.inserted, s.pcs, h.calls);
    FittingIdle(b, s.pcs, h.calls, t);
  }

  lemma {:induction false} BookedShare(c: Config, s: State, v: View, h: History, t: nat, pc: Pc)
    requires v in Views(c, s) && Booked(s, h) && t in s.pcs && s.pcs[t] == pc && pc.ShareOr?
    ensures Booked(DoShareOr(s, t, pc), Note(h, s, Run(t), DoShareOr(s, t, pc)))
  {
    FittingShare(c, s, v, h, t, pc);
    BalancedShare(s, h, t, pc);
    NoteShare(s, h, t, pc);
  }

  lemma {:induction false} NoteShare(s: State, h: History, t: nat, pc: Pc)
    requires t in s.pcs && s.pcs[t] == pc && pc.ShareOr? && pc.search.ForShare? && pc.search.grant in s.live
    requires t in h.calls && PcFits(s.nodes, pc, h.calls[t]) && pc.search.grant in h.accounts
    ensures var g, q, s1 := pc.search.grant, pc.search, DoShareOr(s, t, pc);
            && s1.nodes == WithMask(s.nodes, pc.cur, NodeAt(s.nodes, pc.cur).mask + q.bits)
            && s1.live == s.live[g := s.live[g].(held := s.live[g].held + ({q.hold} + q.bits))]
            && s1.pcs == s.pcs[t := Idle]
            && Note(h, s, Run(t), s1)
               == h.(accounts := h.accounts[g := h.accounts[g].(bits := h.accounts[g].bits + q.bits)])
  {
  }

  /** The caller has its borrowed bit back, and the bits it shared. */
  lemma {:induction false} BalancedShare(s: State, h: History, t: nat, pc: Pc)
    requires Booked(s, h) && t in s.pcs && s.pcs[t] == pc && pc.ShareOr? && pc.search.ForShare?
             && pc.search.grant in s.live
    ensures var g, q := pc.search.grant, pc.search;
            && g in h.accounts
            && Balanced(s.live[g := s.live[g].(held := s.live[g].held + ({q.hold} + q.bits))], s.pcs[t := Idle],
                        h.accounts[g := h.accounts[g].(bits := h.accounts[g].bits + q.bits)])
  {
    var q, g := pc.search, pc.search.grant;
    AccountParts(s, h, t, g, 0);
    var held, bits := s.live[g].held + ({q.hold} + q.bits), h.accounts[g].bits + q.bits;
    forall b ensures b in bits <==> b in held || Lent(s.pcs[t := Idle], t, g, b) || LentByOther(s.pcs, t, g, b) {
      AccountParts(s, h, t, g, b);
    }
    BalancedChange(s.live, s.pcs, h.accounts, t, Idle, g, held, bits);
  }

  lemma {:induction false} FittingIdle(nodes: Nodes, pcs: map<nat, Pc>, calls: map<nat, Call>, t: nat)
    requires Fitting(nodes, pcs, calls) && t in pcs
    ensures Fitting(nodes, pcs[t := Idle], calls)
  {
    var pcs1 := pcs[t := Idle];
    forall u | u in pcs1 && pcs1[u] != Idle ensures u in calls && PcFits(nodes, pcs1[u], calls[u]) {
      assert pcs1[u] == pcs[u];
    }
  }

  lemma {:induction false} OwnerAdvances(c: Config, s: State, shape: Shape, t: nat, pc: Pc, call: Call)
    requires t in s.pcs && s.pcs[t] == pc && PcFits(s.nodes, pc, call)
    requires pc.Dec? || (pc.ClearLoad? && pc.search.ForFree?)
             || (pc.ClearCas? && pc.search.ForFree? && pc.cur in s.nodes && pc.cur in Ptrs(shape)
                 && !(s.nodes[pc.cur].mask == pc.seen && pc.seen - pc.search.bits == {}))
    ensures Advances(s, shape, Exec(c, s, t), t, call)
  {
    ExecOwner(c, s, t, pc);
  }

  lemma {:induction false} BalancedFewer(live: map<nat, Grant>, live1: map<nat, Grant>, pcs: map<nat, Pc>,
                                         accounts: map<nat, Account>)
    requires Balanced(live, pcs, accounts) && forall g :: g in live1 ==> g in live && live1[g] == live[g]
    ensures Balanced(live1, pcs, accounts)
  {
    forall g | g in live1 ensures g in accounts && AccountOk(live1, pcs, g, accounts[g]) {
      assert AccountOk(live, pcs, g, accounts[g]);
      assert forall x :: Has(live1, pcs, g, x) <==> Has(live, pcs, g, x);
    }
  }

  lemma {:induction false} BookedLast(c: Config, s: State, v: View, h: History, t: nat, pc: Pc)
    requires v in Views(c, s) && Booked(s, h) && t in s.pcs && s.pcs[t] == pc && pc.ClearCas? && pc.search.ForFree?
    requires pc.cur in s.nodes && pc.cur in Ptrs(v.shape)
    ensures var s1 := Goto(s.(nodes := WithMask(s.nodes, pc.cur, {}), live := s.live - {pc.search.grant}), t,
                           NewSlot(pc.cur));
            Booked(s1, h)
  {
    assert PcFits(s.nodes, pc, h.calls[t]);
    var to, b, live1 := NewSlot(pc.cur), WithMask(s.nodes, pc.cur, {}), s.live - {pc.search.grant};
    FittingFrame(s.root, s.nodes, b, v.shape, s.inserted, s.pcs, h.calls);
    SameLoans(s.pcs, t, to);
    BalancedMove(s.live, s.pcs, h.accounts, t, to);
    BalancedFewer(s.live, live1, s.pcs[t := to], h.accounts);
    FittingStart(b, s.pcs, h.calls, t, to, h.calls[t]);
    assert h.calls[t := h.calls[t]] == h.calls;
  }

  lemma {:induction false} BookedClear(c: Config, s: State, v: View, h: History, t: nat, pc: Pc)
    requires v in Views(c, s) && Booked(s, h) && t in s.pcs && s.pcs[t] == pc && pc.ClearCas?
    ensures Booked(Exec(c, s, t), Note(h, s, Run(t), Exec(c, s, t)))
  {
    assert PcFits(s.nodes, pc, h.calls[t]) && TreePc(s.root, s.nodes, v.shape, pc);
    if NodeAt(s.nodes, pc.cur).mask == pc.seen && pc.seen - pc.search.bits == {} {
      ExecOwner(c, s, t, pc);
      BookedLast(c, s, v, h, t, pc);
    } else {
      OwnerAdvances(c, s, v.shape, t, pc, h.calls[t]);
      BookedMove(c, s, v, h, Exec(c, s, t), t);
    }
  }

  lemma {:induction false} BookedOwner(c: Config, s: State, v: View, h: History, t: nat, pc: Pc)
    requires v in Views(c, s) && Booked(s, h) && t in s.pcs && s.pcs[t] == pc
    requires pc.ShareOr? || pc.ClearLoad? || pc.ClearCas? || pc.Dec?
    ensures Booked(Exec(c, s, t), Note(h, s, Run(t), Exec(c, s, t)))
  {
    if pc.ShareOr? {
      ExecOwner(c, s, t, pc);
      BookedShare(c, s, v, h, t, pc);
    } else if pc.ClearCas? {
      BookedClear(c, s, v, h, t, pc);
    } else {
      assert PcFits(s.nodes, pc, h.calls[t]) && TreePc(s.root, s.nodes, v.shape, pc);
      OwnerAdvances(c, s, v.shape, t, pc, h.calls[t]);
      BookedMove(c, s, v, h, Exec(c, s, t), t);
    }
  }

  // ---- Calls begin ----------------------------------------------------------------------------------------------

  lemma {:induction false} FittingStart(nodes: Nodes, pcs: map<nat, Pc>, calls: map<nat, Call>, t: nat, to: Pc,
      call: Call)
    requires Fitting(nodes, pcs, calls) && t in pcs && PcFits(nodes, to, call)
    ensures Fitting(nodes, pcs[t := to], calls[t := call])
  {
    var pcs1 := pcs[t := to];
    forall u | u in pcs1 && pcs1[u] != Idle ensures u in calls[t := call]
        && PcFits(nodes, pcs1[u], calls[t := call][u]) {
      if u != t { assert PcFits(nodes, pcs[u], calls[u]); }
    }
  }

  lemma {:induction false} BookedFree(c: Config, s: State, v: View, h: History, t: nat, g: nat, bits: Mask)
    requires v in Views(c, s) && Booked(s, h) && t in s.pcs && s.pcs[t].Idle? && Allowed(s, CallFree(g, bits))
    ensures var s1 := Begin(s, t, CallFree(g, bits)); Booked(s1, Note(h, s, Start(t, CallFree(g, bits)), s1))
  {
    var to, held := FindRoot(ForFree(g, s.live[g].addr, bits)), s.live[g].held - bits;
    AccountParts(s, h, t, g, 0);
    forall b ensures b in h.accounts[g].bits - bits
                     <==> b in held || Lent(s.pcs[t := to], t, g, b) || LentByOther(s.pcs, t, g, b) {
      AccountParts(s, h, t, g, b);
      if LentByOther(s.pcs, t, g, b) {
        var u :| u != t && Lent(s.pcs, u, g, b);
        assert CallOk(s.nodes, v.shape, s.live, s.pcs[u]);
      }
    }
    BalancedChange(s.live, s.pcs, h.accounts, t, to, g, held, h.accounts[g].bits - bits);
    FittingStart(s.nodes, s.pcs, h.calls, t, to, CallFree(g, bits));
  }

  lemma {:induction false} BookedBeginShare(s: State, h: History, t: nat, g: nat, hold: nat, bits: Mask)
    requires Booked(s, h) && t in s.pcs && s.pcs[t].Idle? && g in s.live && hold in s.live[g].held
    ensures var s1 :=
            Begin(s, t, CallShare(g, hold, bits)); Booked(s1, Note(h, s, Start(t, CallShare(g, hold, bits)), s1))
  {
    var to, held := FindRoot(ForShare(g, s.live[g].addr, hold, NormalizeMask(bits))), s.live[g].held - {hold};
    AccountParts(s, h, t, g, 0);
    forall b ensures b in h.accounts[g].bits
                     <==> b in held || Lent(s.pcs[t := to], t, g, b) || LentByOther(s.pcs, t, g, b) {
      AccountParts(s, h, t, g, b);
    }
    BalancedChange(s.live, s.pcs, h.accounts, t, to, g, held, h.accounts[g].bits);
    assert h.accounts[g := h.accounts[g].(bits := h.accounts[g].bits)] == h.accounts;
    FittingStart(s.nodes, s.pcs, h.calls, t, to, CallShare(g, hold, bits));
  }

  lemma {:induction false} BookedStart(c: Config, s: State, v: View, h: History, t: nat, call: Call)
    requires v in Views(c, s) && Booked(s, h) && t in s.pcs && s.pcs[t].Idle? && Allowed(s, call)
    ensures Booked(Begin(s, t, call), Note(h, s, Start(t, call), Begin(s, t, call)))
  {
    match call
    case CallFree(g, bits) => BookedFree(c, s, v, h, t, g, bits);
    case CallShare(g, hold, bits) => BookedBeginShare(s, h, t, g, hold, bits);
    case _ =>
      var to := Begin(s, t, call).pcs[t];
      SameLoans(s.pcs, t, to);
      BalancedMove(s.live, s.pcs, h.accounts, t, to);
      FittingStart(s.nodes, s.pcs, h.calls, t, to, call);
  }

  // ---- Whole runs -------------------------------------------------------------------------------------------------

  lemma {:induction false} BookedStep(c: Config, s: State, h: History, m: Move)
    requires Good(c, s) && Booked(s, h) && Legal(s, m)
    ensures Booked(Do(c, s, m), Note(h, s, m, Do(c, s, m)))
  {
    var v :| v in Views(c, s);
    match m {
      case Start(t, call) => BookedStart(c, s, v, h, t, call);
      case Run(t) =>
        var pc := s.pcs[t];
        if pc.Inc? {
          ExecAlloc(c, s, t, pc);
          BookedInc(c, s, v, h, t, pc);
        } else if pc.ShareOr? || pc.ClearLoad? || pc.ClearCas? || pc.Dec? {
          BookedOwner(c, s, v, h, t, pc);
        } else {
          BookedQuiet(c, s, v, h, t, pc);
        }
    }
  }

  lemma {:induction false} RunsBooked(c: Config, s: State, moves: seq<Move>, h: History)
    requires Good(c, s) && Booked(s, h) && LegalRun(c, s, moves) && NoStalePops(c, s, moves)
    ensures Booked(After(c, s, moves), Noted(c, s, moves, h))
    decreases |moves|
  {
    if moves != [] {
      var s1 := Do(c, s, moves[0]);
      BookedStep(c, s, h, moves[0]);
      StepGood(c, s, moves[0]);
      RunsBooked(c, s1, moves[1..], Note(h, s, moves[0], s1));
    }
  }

  /** In every interleaving without stale pops, the size asked for and the owner bits of a block that is handed
      out follow from the calls: the bits callers hold, with those that shares in progress have borrowed, are
      the bits of the allocation and of every share that has ended, less those handed to a free. */
  lemma {:induction false} HoldersFollowTheCalls(c: Config, threads: set<nat>, moves: seq<Move>, g: nat)
    requires c.WellFormed() && LegalRun(c, Initial(c, threads), moves) && NoStalePops(c, Initial(c, threads), moves)
    requires g in After(c, Initial(c, threads), moves).live
    ensures var s := After(c, Initial(c, threads), moves);
            var accounts := Noted(c, Initial(c, threads), moves, History(map[], map[])).accounts;
            && g in accounts && s.live[g].want == accounts[g].want
            && forall b :: b in accounts[g].bits <==> Has(s.live, s.pcs, g, b)
  {
    var o, h := Initial(c, threads), History(map[], map[]);
    InitialGood(c, threads);
    assert Booked(o, h);
    RunsBooked(c, o, moves, h);
    var s, accounts := After(c, o, moves), Noted(c, o, moves, h).accounts;
    assert AccountOk(s.live, s.pcs, g, accounts[g]);
  }
}
