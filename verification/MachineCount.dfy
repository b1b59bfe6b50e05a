/** What the counter of active blocks counts while calls are under way. */
module MachineCount {
  import opened Words
  import opened Layout
  import opened Machine
  import opened MachineInvariant
  import opened MachineMoves
  import opened MachineOwners
  import opened MachineSafety

  /** The call has cleared the last owner of a block and not yet counted it out. */
  predicate Releasing(pc: Pc) {
    pc.NewSlot? || pc.Dec? || ((pc.PushHead? || pc.PushLink? || pc.PushCas?) && pc.push.Release?)
  }

  ghost function Releasers(pcs: map<nat, Pc>): set<nat> {
    set t | t in pcs && Releasing(pcs[t])
  }

  /** Blocks counted that no caller has and no call is about to count out. */
  ghost function Surplus(s: State): int {
    s.active - |s.live| - |Releasers(s.pcs)|
  }

  /** The release fails because there is no room for its slot. */
  predicate FailsToRelease(c: Config, s: State, m: Move)
    requires m.thread in s.pcs
  {
    m.Run? && s.pcs[m.thread].NewSlot? && s.nodeBump + SLOT_BYTES > c.nodeEnd
  }

  ghost function FailedReleases(c: Config, s: State, moves: seq<Move>): nat
    requires LegalRun(c, s, moves)
    decreases |moves|
  {
    if moves == [] then 0
    else (if FailsToRelease(c, s, moves[0]) then 1 else 0) + FailedReleases(c, Do(c, s, moves[0]), moves[1..])
  }

  function One(b: bool): int {
    if b then 1 else 0
  }

  lemma {:induction false} ReleasersMove(pcs: map<nat, Pc>, t: nat, pc: Pc)
    requires t in pcs
    ensures |Releasers(pcs[t := pc])| == |Releasers(pcs)| - One(Releasing(pcs[t])) + One(Releasing(pc))
  {
    var rest := Releasers(pcs) - {t};
    assert Releasers(pcs) == if Releasing(pcs[t]) then rest + {t} else rest;
    assert Releasers(pcs[t := pc]) == if Releasing(pc) then rest + {t} else rest;
  }

  /** A thread moves on, and so does the count. */
  lemma {:induction false} SurplusMove(s: State, s1: State, t: nat, to: Pc)
    requires t in s.pcs && s1.pcs == s.pcs
    ensures Surplus(Goto(s1, t, to)) - Surplus(s)
            == s1.active - s.active - (|s1.live| - |s.live|) - One(Releasing(to)) + One(Releasing(s.pcs[t]))
  {
    ReleasersMove(s.pcs, t, to);
  }

  lemma {:induction false} SameKeys(a: map<nat, Grant>, b: map<nat, Grant>)
    requires a.Keys == b.Keys
    ensures |a| == |b|
  {
    assert |a| == |a.Keys| && |b| == |b.Keys|;
  }

  lemma {:induction false} HeldKeepsCount(s: State, g: nat, bits: Mask)
    ensures |TakeHeld(s, g, bits).live| == |s.live| && |GiveHeld(s, g, bits).live| == |s.live|
  {
    SameKeys(TakeHeld(s, g, bits).live, s.live);
    SameKeys(GiveHeld(s, g, bits).live, s.live);
  }

  lemma {:induction false} SurplusStart(s: State, t: nat, call: Call)
    requires t in s.pcs && s.pcs[t].Idle?
    ensures Surplus(Begin(s, t, call)) == Surplus(s)
  {
    var s1, to := Begin(s, t, call).(pcs := s.pcs), Begin(s, t, call).pcs[t];
    assert Begin(s, t, call) == Goto(s1, t, to);
    if call.CallShare? { HeldKeepsCount(s, call.grant, {call.hold}); }
    if call.CallFree? { HeldKeepsCount(s, call.grant, call.bits); }
    SurplusMove(s, s1, t, to);
  }

  lemma {:induction false} SurplusPopPush(c: Config, s: State, t: nat, pc: Pc)
    requires t in s.pcs && s.pcs[t] == pc
    requires pc.PopHead? || pc.PopNext? || pc.PopCas? || pc.PushHead? || pc.PushLink? || pc.PushCas?
    ensures Surplus(Exec(c, s, t)) == Surplus(s)
  {
    var s1, to := Exec(c, s, t).(pcs := s.pcs), Exec(c, s, t).pcs[t];
    if pc.PopHead? || pc.PopNext? || pc.PopCas? { ExecPop(c, s, t, pc); } else { ExecPush(c, s, t, pc); }
    assert Exec(c, s, t) == Goto(s1, t, to) && s1.active == s.active && s1.live == s.live;
    SurplusMove(s, s1, t, to);
  }

  lemma {:induction false} OneMore(live: map<nat, Grant>, g: nat, b: Grant)
    requires g !in live
    ensures |live[g := b]| == |live| + 1
  {
    assert live[g := b].Keys == live.Keys + {g};
    assert |live[g := b]| == |live[g := b].Keys| && |live| == |live.Keys|;
  }

  lemma {:induction false} SurplusInc(s: State, t: nat, pc: Pc)
    requires t in s.pcs && s.pcs[t] == pc && pc.Inc? && s.nextGrant !in s.live
    ensures Surplus(DoInc(s, t, pc)) == Surplus(s)
  {
    var s1 := DoInc(s, t, pc).(pcs := s.pcs);
    OneMore(s.live, s.nextGrant, Grant(pc.addr, pc.want, pc.mask));
    SurplusMove(s, s1, t, Idle);
  }

  lemma {:induction false} SurplusAlloc(c: Config, s: State, t: nat, pc: Pc)
    requires c.WellFormed() && t in s.pcs && s.pcs[t] == pc && NoWrap(s, t) && (pc.Bump? || pc.NewNode? || pc.NewSlot?)
    ensures Surplus(Exec(c, s, t)) == Surplus(s) + One(FailsToRelease(c, s, Run(t)))
  {
    ExecAlloc(c, s, t, pc);
    var s1, to := Exec(c, s, t).(pcs := s.pcs), Exec(c, s, t).pcs[t];
    assert Exec(c, s, t) == Goto(s1, t, to) && s1.live == s.live && s1.active == s.active;
    SurplusMove(s, s1, t, to);
  }

  lemma {:induction false} SurplusInsert(c: Config, s: State, t: nat, pc: Pc)
    requires t in s.pcs && s.pcs[t] == pc && (pc.InsRoot? || pc.InsRootCas? || pc.InsAt? || pc.InsCas? || pc.InsMerge?)
    ensures Surplus(Exec(c, s, t)) == Surplus(s)
  {
    InsertLeavesGrants(c, s, t, pc);
    var s1, to := InsertQuiet(c, s, t, pc);
    assert Exec(c, s, t).pcs[t] == to && s1.active == s.active && s1.live == s.live;
    SurplusMove(s, s1, t, to);
  }

  lemma {:induction false} InsertLeavesGrants(c: Config, s: State, t: nat, pc: Pc)
    requires t in s.pcs && s.pcs[t] == pc && (pc.InsRoot? || pc.InsRootCas? || pc.InsAt? || pc.InsCas? || pc.InsMerge?)
    ensures Exec(c, s, t).active == s.active && Exec(c, s, t).live == s.live
    ensures t in Exec(c, s, t).pcs && !Releasing(Exec(c, s, t).pcs[t])
  {
    ExecInsert(c, s, t, pc);
  }

  lemma {:induction false} SurplusMiss(s: State, t: nat, q: Search)
    requires t in s.pcs && !Releasing(s.pcs[t])
    ensures Surplus(Miss(s, t, q)) == Surplus(s)
  {
    match q
    case ForShare(g, _, hold, _) =>
      HeldKeepsCount(s, g, {hold});
      SurplusMove(s, GiveHeld(s, g, {hold}), t, Idle);
    case ForFree(g, _, bits) =>
      HeldKeepsCount(s, g, bits);
      SurplusMove(s, GiveHeld(s, g, bits), t, Idle);
    case ForLookup(addr, present) => SurplusMove(s, s, t, Looked(addr, present, false));
  }

  lemma {:induction false} SurplusFind(c: Config, s: State, t: nat, pc: Pc)
    requires t in s.pcs && s.pcs[t] == pc && (pc.FindRoot? || pc.FindAt? || pc.Looked?)
    ensures Surplus(Exec(c, s, t)) == Surplus(s)
  {
    ExecFind(c, s, t, pc);
    if !pc.Looked? { SurplusMiss(s, t, pc.search); }
    var to := Exec(c, s, t).pcs[t];
    SurplusMove(s, s, t, to);
  }

  lemma {:induction false} SurplusClear(c: Config, s: State, t: nat, pc: Pc)
    requires t in s.pcs && s.pcs[t] == pc && pc.ClearCas? && pc.search.ForFree? && pc.search.grant in s.live
    ensures Surplus(Exec(c, s, t)) == Surplus(s)
  {
    ExecOwner(c, s, t, pc);
    var s1, to := Exec(c, s, t).(pcs := s.pcs), Exec(c, s, t).pcs[t];
    assert Exec(c, s, t) == Goto(s1, t, to) && s1.active == s.active;
    if to.NewSlot? {
      assert s1.live.Keys == s.live.Keys - {pc.search.grant};
      assert |s1.live| == |s1.live.Keys| && |s.live| == |s.live.Keys|;
    } else {
      assert s1.live == s.live;
    }
    SurplusMove(s, s1, t, to);
  }

  lemma {:induction false} SurplusOwner(c: Config, s: State, t: nat, pc: Pc)
    requires t in s.pcs && s.pcs[t] == pc && ((pc.ShareOr? && pc.search.ForShare?) || pc.ClearLoad? || pc.Dec?)
    ensures Surplus(Exec(c, s, t)) == Surplus(s)
  {
    ExecOwner(c, s, t, pc);
    var s1, to := Exec(c, s, t).(pcs := s.pcs), Exec(c, s, t).pcs[t];
    if pc.ShareOr? {
      HeldKeepsCount(s.(nodes := s1.nodes), pc.search.grant, {pc.search.hold} + pc.search.bits);
    }
    assert Exec(c, s, t) == Goto(s1, t, to);
    SurplusMove(s, s1, t, to);
  }

  /** What the invariant says that the count rests on. */
  lemma {:induction false} CountedCalls(c: Config, s: State, v: View, t: nat)
    requires v in Views(c, s) && t in s.pcs
    ensures c.WellFormed() && s.nextGrant !in s.live
    ensures s.pcs[t].ShareOr? ==> s.pcs[t].search.ForShare?
    ensures s.pcs[t].ClearCas? ==> s.pcs[t].search.ForFree? && s.pcs[t].search.grant in s.live
  {
    assert s.nextGrant in s.live ==> GrantOk(s.nextGrant, s.inserted, v.ext, v.st, s.nextGrant, s.live[s.nextGrant]);
    assert TreePc(s.root, s.nodes, v.shape, s.pcs[t]) && CallOk(s.nodes, v.shape, s.live, s.pcs[t]);
  }

  lemma {:induction false} SurplusExec(c: Config, s: State, t: nat, pc: Pc)
    requires c.WellFormed() && s.nextGrant !in s.live && t in s.pcs && s.pcs[t] == pc && !pc.Idle? && NoWrap(s, t)
    requires pc.ShareOr? ==> pc.search.ForShare?
    requires pc.ClearCas? ==> pc.search.ForFree? && pc.search.grant in s.live
    ensures Surplus(Exec(c, s, t)) == Surplus(s) + One(FailsToRelease(c, s, Run(t)))
  {
    if pc.PopHead? || pc.PopNext? || pc.PopCas? || pc.PushHead? || pc.PushLink? || pc.PushCas? {
      SurplusPopPush(c, s, t, pc);
    } else if pc.Inc? {
      ExecAlloc(c, s, t, pc);
      SurplusInc(s, t, pc);
    } else if pc.Bump? || pc.NewNode? || pc.NewSlot? {
      SurplusAlloc(c, s, t, pc);
    } else if pc.ClearCas? {
      SurplusClear(c, s, t, pc);
    } else if pc.ShareOr? || pc.ClearLoad? || pc.Dec? {
      SurplusOwner(c, s, t, pc);
    } else if pc.FindRoot? || pc.FindAt? || pc.Looked? {
      SurplusFind(c, s, t, pc);
    } else {
      SurplusInsert(c, s, t, pc);
    }
  }

  lemma {:induction false} SurplusStep(c: Config, s: State, m: Move)
    requires Good(c, s) && Legal(s, m)
    ensures Surplus(Do(c, s, m)) == Surplus(s) + One(FailsToRelease(c, s, m))
  {
    var v :| v in Views(c, s);
    match m {
      case Start(t, call) => SurplusStart(s, t, call);
      case Run(t) =>
        CountedCalls(c, s, v, t);
        SurplusExec(c, s, t, s.pcs[t]);
    }
  }

  lemma {:induction false} SurplusRun(c: Config, s: State, moves: seq<Move>)
    requires Good(c, s) && LegalRun(c, s, moves) && NoStalePops(c, s, moves)
    ensures Surplus(After(c, s, moves)) == Surplus(s) + FailedReleases(c, s, moves)
    decreases |moves|
  {
    if moves != [] {
      SurplusStep(c, s, moves[0]);
      StepGood(c, s, moves[0]);
      SurplusRun(c, Do(c, s, moves[0]), moves[1..]);
    }
  }

  /** In every interleaving without stale pops the counter is the number of blocks that callers have, plus the
      calls that have cleared a last owner and not yet counted the block out, plus the releases that failed
      for want of metadata. */
  lemma {:induction false} ActiveCounts(c: Config, threads: set<nat>, moves: seq<Move>)
    requires c.WellFormed() && LegalRun(c, Initial(c, threads), moves) && NoStalePops(c, Initial(c, threads), moves)
    ensures var s := After(c, Initial(c, threads), moves);
            s.active == |s.live| + |Releasers(s.pcs)| + FailedReleases(c, Initial(c, threads), moves)
  {
    InitialGood(c, threads);
    SurplusRun(c, Initial(c, threads), moves);
    assert Releasers(Initial(c, threads).pcs) == {};
  }
}
