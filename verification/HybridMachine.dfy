/** Concurrent small allocations over sharded slabs, one atomic action per step.

    A step is one snapshot of a shard's slab list, one atomic add on a slab's offset, one lock or unlock,
    one pool access, one rewind, or one store of a new list.  The slab list is read as one value.
 */
module HybridMachine {
  import opened Words
  import opened SlabPacking

  type Slab = nat

  datatype Pc =
    | Idle
    | Entered(shard: nat, size: nat)
    | Scanning(shard: nat, size: nat, list: seq<Slab>, next: nat, locked: bool)
    | Waiting(shard: nat, size: nat)
    | Locked(shard: nat, size: nat)
    | Got(shard: nat, size: nat, list: seq<Slab>, slab: Slab)
    | Rewound(shard: nat, size: nat, list: seq<Slab>, slab: Slab)
    | Published(shard: nat, size: nat, slab: Slab)
    | Leaving(shard: nat)

  /** A range of a slab that was returned to a caller. */
  datatype Range = Range(slab: Slab, at: nat, size: nat)

  datatype State = State(
    offs: map<Slab, nat>,
    lists: seq<seq<Slab>>,
    pools: seq<set<Slab>>,
    locks: seq<bool>,
    pcs: seq<Pc>,
    given: seq<Range>)

  /** A thread that is idle starts a call; else it takes its next step.  `pick` is what the pool gives. */
  datatype Action = Call(shard: nat, size: nat) | Go(pick: Slab)

  /** The add on slab `x`: the offset moves in any case, and the range is returned if it fits. */
  function Add(s: State, x: Slab, size: nat): (State, bool)
    requires x in s.offs
  {
    if size == 0 then (s, true)
    else
      var next := s.offs[x] + size;
      var moved := s.(offs := s.offs[x := next]);
      if next > SLAB_SIZE then (moved, false)
      else (moved.(given := s.given + [Range(x, next - size, size)]), true)
  }

  function SetPc(s: State, t: nat, pc: Pc): State
    requires t < |s.pcs|
  {
    s.(pcs := s.pcs[t := pc])
  }

  /** The shard and the slab that the next step of thread `t` touches exist. */
  predicate Ready(s: State, t: nat)
    requires t < |s.pcs|
  {
    match s.pcs[t]
    case Idle => true
    case Scanning(sh, _, list, i, _) => sh < |s.lists| && (i < |list| ==> list[i] in s.offs)
    case Published(sh, _, slab) => sh < |s.lists| && slab in s.offs
    case pc => pc.shard < |s.lists|
  }

  /** The next step of thread `t` does not take a slab's 64-bit offset past its largest value. */
  predicate NoWrap(s: State, t: nat)
    requires t < |s.pcs| && Ready(s, t)
  {
    match s.pcs[t]
    case Scanning(_, size, list, i, _) => i < |list| ==> s.offs[list[i]] + size <= MAX_INT
    case Published(_, size, slab) => s.offs[slab] + size <= MAX_INT
    case _ => true
  }

  function Exec(s: State, t: nat, a: Action): State
    requires t < |s.pcs| && |s.lists| == |s.pools| == |s.locks| && Ready(s, t)
  {
    match s.pcs[t]
    case Idle =>
      if a.Call? && a.shard < |s.lists| then SetPc(s, t, Entered(a.shard, a.size)) else s
    case Entered(sh, size) =>
      SetPc(s, t, Scanning(sh, size, s.lists[sh], 0, false))
    case Scanning(sh, size, list, i, locked) =>
      if i < |list| then
        var (after, ok) := Add(s, list[i], size);
        SetPc(after, t, if !ok then Scanning(sh, size, list, i + 1, locked) else if locked then Leaving(sh) else Idle)
      else if !locked then SetPc(s, t, Waiting(sh, size))
      else if a.Go? && a.pick in s.pools[sh] then
        SetPc(s.(pools := s.pools[sh := s.pools[sh] - {a.pick}]), t, Got(sh, size, list, a.pick))
      else if a.Go? && a.pick !in s.offs then
        SetPc(s.(offs := s.offs[a.pick := 0]), t, Got(sh, size, list, a.pick))
      else s
    case Waiting(sh, size) =>
      if s.locks[sh] then s else SetPc(s.(locks := s.locks[sh := true]), t, Locked(sh, size))
    case Locked(sh, size) =>
      SetPc(s, t, Scanning(sh, size, s.lists[sh], 0, true))
    case Got(sh, size, list, slab) =>
      SetPc(s.(offs := s.offs[slab := 0]), t, Rewound(sh, size, list, slab))
    case Rewound(sh, size, list, slab) =>
      SetPc(s.(lists := s.lists[sh := list + [slab]]), t, Published(sh, size, slab))
    case Published(sh, size, slab) =>
      SetPc(Add(s, slab, size).0, t, Leaving(sh))
    case Leaving(sh) =>
      SetPc(s.(locks := s.locks[sh := false]), t, Idle)
  }

  // ---- The invariant -------------------------------------------------------------------------------

  ghost predicate At(lists: seq<seq<Slab>>, sh: nat, i: nat, x: Slab) {
    sh < |lists| && i < |lists[sh]| && lists[sh][i] == x
  }

  ghost predicate Listed(lists: seq<seq<Slab>>, x: Slab) {
    exists sh, i :: At(lists, sh, i, x)
  }

  /** No slab is in two places of the lists. */
  ghost predicate Unique(lists: seq<seq<Slab>>) {
    forall sh, i, sh2, j, x :: At(lists, sh, i, x) && At(lists, sh2, j, x) ==> sh == sh2 && i == j
  }

  ghost predicate Pooled(pools: seq<set<Slab>>, sh: nat, x: Slab) {
    sh < |pools| && x in pools[sh]
  }

  /** Thread `t` has taken slab `x` from the pool and not yet published it. */
  ghost predicate InHand(pcs: seq<Pc>, t: nat, x: Slab) {
    t < |pcs| && (pcs[t].Got? || pcs[t].Rewound?) && pcs[t].slab == x
  }

  /** Every slab is in one place: a list, a pool, or the hands of one thread. */
  ghost predicate Homes(offs: map<Slab, nat>, lists: seq<seq<Slab>>, pools: seq<set<Slab>>, pcs: seq<Pc>) {
    && Unique(lists)
    && (forall x :: Listed(lists, x) ==> x in offs)
    && (forall sh, x :: Pooled(pools, sh, x) ==> x in offs && !Listed(lists, x))
    && (forall sh, sh2, x :: Pooled(pools, sh, x) && Pooled(pools, sh2, x) ==> sh == sh2)
    && (forall t, x :: InHand(pcs, t, x) ==> x in offs && !Listed(lists, x))
    && (forall t, x, sh :: InHand(pcs, t, x) ==> !Pooled(pools, sh, x))
    && (forall t, u, x :: InHand(pcs, t, x) && InHand(pcs, u, x) ==> t == u)
  }

  /** Thread `t` is inside the lock of shard `sh`. */
  ghost predicate Holding(pcs: seq<Pc>, t: nat, sh: nat) {
    t < |pcs| && pcs[t] != Idle && pcs[t].shard == sh
    && (pcs[t].Locked? || pcs[t].Got? || pcs[t].Rewound? || pcs[t].Published? || pcs[t].Leaving?
        || (pcs[t].Scanning? && pcs[t].locked))
  }

  ghost predicate LocksOk(locks: seq<bool>, pcs: seq<Pc>) {
    && (forall t, sh: nat :: Holding(pcs, t, sh) && sh < |locks| ==> locks[sh])
    && (forall t, u, sh: nat :: Holding(pcs, t, sh) && Holding(pcs, u, sh) ==> t == u)
  }

  /** What a thread remembers is still so: a snapshot is a prefix of the list, and all of it under the lock. */
  ghost predicate PcOk(lists: seq<seq<Slab>>, pc: Pc) {
    match pc
    case Idle => true
    case Scanning(sh, _, list, i, locked) =>
      sh < |lists| && list <= lists[sh] && i <= |list| && (locked ==> list == lists[sh])
    case Got(sh, _, list, _) => sh < |lists| && list == lists[sh]
    case Rewound(sh, _, list, _) => sh < |lists| && list == lists[sh]
    case Published(sh, _, slab) => sh < |lists| && slab in lists[sh]
    case _ => pc.shard < |lists|
  }

  ghost predicate PcsOk(lists: seq<seq<Slab>>, pcs: seq<Pc>) {
    forall t :: 0 <= t < |pcs| ==> PcOk(lists, pcs[t])
  }

  ghost predicate GivenOk(offs: map<Slab, nat>, lists: seq<seq<Slab>>, given: seq<Range>) {
    && (forall i :: 0 <= i < |given| ==>
          && Listed(lists, given[i].slab) && given[i].slab in offs
          && 0 < given[i].size && given[i].at + given[i].size <= offs[given[i].slab]
          && given[i].at + given[i].size <= SLAB_SIZE)
    && Disjoint(given)
  }

  /** Ranges of one slab that were returned one after the other lie one after the other. */
  ghost predicate Disjoint(given: seq<Range>) {
    forall i, j :: 0 <= i < j < |given| && given[i].slab == given[j].slab ==> given[i].at + given[i].size <= given[j].at
  }

  ghost predicate Inv(s: State) {
    && |s.lists| == |s.pools| == |s.locks|
    && Homes(s.offs, s.lists, s.pools, s.pcs)
    && LocksOk(s.locks, s.pcs)
    && PcsOk(s.lists, s.pcs)
    && GivenOk(s.offs, s.lists, s.given)
  }

  // ---- Each step keeps it --------------------------------------------------------------------------

  lemma {:induction false} ReadyWhenInv(s: State, t: nat)
    requires Inv(s) && t < |s.pcs|
    ensures Ready(s, t)
  {
    assert PcOk(s.lists, s.pcs[t]);
    match s.pcs[t]
    case Scanning(sh, _, list, i, _) =>
      if i < |list| { assert At(s.lists, sh, i, list[i]); }
    case Published(sh, _, slab) =>
      var i :| 0 <= i < |s.lists[sh]| && s.lists[sh][i] == slab;
      assert At(s.lists, sh, i, slab);
    case _ =>
  }

  /** A step that changes no hands and no homes. */
  lemma {:induction false} HomesFrame(offs: map<Slab, nat>, offs1: map<Slab, nat>,
      lists: seq<seq<Slab>>, pools: seq<set<Slab>>, pcs: seq<Pc>, t: nat, pc: Pc)
    requires Homes(offs, lists, pools, pcs) && t < |pcs| && (forall x :: x in offs ==> x in offs1)
    requires forall x :: InHand(pcs[t := pc], t, x) ==> InHand(pcs, t, x)
    ensures Homes(offs1, lists, pools, pcs[t := pc])
  {
    var after := pcs[t := pc];
    forall u, x | InHand(after, u, x) ensures InHand(pcs, u, x) {
      if u == t { assert InHand(pcs[t := pc], t, x); }
    }
    assert Homes(offs1, lists, pools, after);
  }

  lemma {:induction false} LocksFrame(locks: seq<bool>, pcs: seq<Pc>, t: nat, pc: Pc)
    requires LocksOk(locks, pcs) && t < |pcs|
    requires forall sh: nat :: Holding(pcs[t := pc], t, sh) ==> Holding(pcs, t, sh)
    ensures LocksOk(locks, pcs[t := pc])
  {
    var after := pcs[t := pc];
    forall u, sh: nat | Holding(after, u, sh) ensures Holding(pcs, u, sh) {
      if u == t { assert Holding(pcs[t := pc], t, sh); }
    }
    assert LocksOk(locks, after);
  }

  /** The atomic add returns bytes of a listed slab that nobody had. */
  lemma {:induction false} AddKeeps(s: State, x: Slab, size: nat)
    requires Inv(s) && x in s.offs && Listed(s.lists, x)
    ensures var after := Add(s, x, size).0;
            && GivenOk(after.offs, s.lists, after.given) && (forall y :: y in s.offs ==> y in after.offs)
            && after == s.(offs := after.offs, given := after.given)
  {
  }

  lemma {:induction false} StepScan(s: State, t: nat, a: Action)
    requires Inv(s) && t < |s.pcs| && Ready(s, t)
    requires s.pcs[t].Scanning? && s.pcs[t].next < |s.pcs[t].list|
    ensures Inv(Exec(s, t, a))
  {
    var pc := s.pcs[t];
    assert PcOk(s.lists, pc);
    var x := pc.list[pc.next];
    assert At(s.lists, pc.shard, pc.next, x);
    AddKeeps(s, x, pc.size);
    var (after, ok) := Add(s, x, pc.size);
    var pc1 := if !ok then pc.(next := pc.next + 1) else if pc.locked then Leaving(pc.shard) else Idle;
    HomesFrame(s.offs, after.offs, s.lists, s.pools, s.pcs, t, pc1);
    assert forall sh: nat :: Holding(s.pcs[t := pc1], t, sh) ==> Holding(s.pcs, t, sh);
    LocksFrame(s.locks, s.pcs, t, pc1);
  }

  /** Steps that only move the thread: they take nothing into hand and enter no lock. */
  lemma {:induction false} StepQuiet(s: State, t: nat, pc: Pc)
    requires Inv(s) && t < |s.pcs| && PcOk(s.lists, pc)
    requires forall x :: InHand(s.pcs[t := pc], t, x) ==> InHand(s.pcs, t, x)
    requires forall sh: nat :: Holding(s.pcs[t := pc], t, sh) ==> Holding(s.pcs, t, sh)
    ensures Inv(SetPc(s, t, pc))
  {
    HomesFrame(s.offs, s.offs, s.lists, s.pools, s.pcs, t, pc);
    LocksFrame(s.locks, s.pcs, t, pc);
  }

  lemma {:induction false} StepLock(s: State, t: nat, sh: nat, size: nat)
    requires Inv(s) && t < |s.pcs| && s.pcs[t] == Waiting(sh, size) && sh < |s.locks| && !s.locks[sh]
    ensures Inv(SetPc(s.(locks := s.locks[sh := true]), t, Locked(sh, size)))
  {
    var pcs, locks := s.pcs[t := Locked(sh, size)], s.locks[sh := true];
    HomesFrame(s.offs, s.offs, s.lists, s.pools, s.pcs, t, Locked(sh, size));
    forall u, k: nat | Holding(pcs, u, k) ensures if u == t then k == sh else Holding(s.pcs, u, k) && k != sh {
      if u != t { assert Holding(s.pcs, u, k); }
    }
    assert LocksOk(locks, pcs);
  }

  lemma {:induction false} StepUnlock(s: State, t: nat, sh: nat)
    requires Inv(s) && t < |s.pcs| && s.pcs[t] == Leaving(sh) && sh < |s.locks|
    ensures Inv(SetPc(s.(locks := s.locks[sh := false]), t, Idle))
  {
    var pcs, locks := s.pcs[t := Idle], s.locks[sh := false];
    HomesFrame(s.offs, s.offs, s.lists, s.pools, s.pcs, t, Idle);
    assert Holding(s.pcs, t, sh);
    forall u, k: nat | Holding(pcs, u, k) ensures Holding(s.pcs, u, k) && k != sh {
      assert u != t && Holding(s.pcs, u, k);
    }
    assert LocksOk(locks, pcs);
  }

  /** A slab leaves the pool, or is made, and is in hand. */
  lemma {:induction false} StepTake(s: State, t: nat, x: Slab)
    requires Inv(s) && t < |s.pcs| && Ready(s, t)
    requires s.pcs[t].Scanning? && s.pcs[t].next == |s.pcs[t].list| && s.pcs[t].locked
    ensures Inv(Exec(s, t, Go(x)))
  {
    var pc := s.pcs[t];
    var sh, pc1 := pc.shard, Got(pc.shard, pc.size, pc.list, x);
    var pcs, after := s.pcs[t := pc1], Exec(s, t, Go(x));
    assert PcOk(s.lists, pc);
    if after != s {
      assert after.pcs == pcs;
      assert x in s.pools[sh] ==> Pooled(s.pools, sh, x);
      forall u, y | InHand(pcs, u, y) ensures if u == t then y == x else InHand(s.pcs, u, y) && y != x {
        if u != t { assert InHand(s.pcs, u, y); }
      }
      forall k, y | Pooled(after.pools, k, y) ensures Pooled(s.pools, k, y) && y != x {
        assert Pooled(s.pools, k, y);
      }
      assert Homes(after.offs, after.lists, after.pools, pcs);
      assert forall k: nat :: Holding(pcs, t, k) ==> Holding(s.pcs, t, k);
      LocksFrame(s.locks, s.pcs, t, pc1);
    }
  }

  /** Rewinding touches a slab that is in no list, so no range that was returned. */
  lemma {:induction false} StepRewind(s: State, t: nat)
    requires Inv(s) && t < |s.pcs| && s.pcs[t].Got?
    ensures var pc := s.pcs[t];
            Inv(SetPc(s.(offs := s.offs[pc.slab := 0]), t, Rewound(pc.shard, pc.size, pc.list, pc.slab)))
  {
    var pc := s.pcs[t];
    var pc1 := Rewound(pc.shard, pc.size, pc.list, pc.slab);
    assert PcOk(s.lists, pc);
    assert InHand(s.pcs, t, pc.slab);
    HomesFrame(s.offs, s.offs[pc.slab := 0], s.lists, s.pools, s.pcs, t, pc1);
    assert forall k: nat :: Holding(s.pcs[t := pc1], t, k) ==> Holding(s.pcs, t, k);
    LocksFrame(s.locks, s.pcs, t, pc1);
    assert GivenOk(s.offs[pc.slab := 0], s.lists, s.given);
  }

  lemma {:induction false} ListedAfter(lists: seq<seq<Slab>>, sh: nat, x: Slab)
    requires sh < |lists|
    ensures var after := lists[sh := lists[sh] + [x]];
            && (forall k, i, y :: At(after, k, i, y) <==> At(lists, k, i, y) || (k == sh && i == |lists[sh]| && y == x))
            && (forall y :: Listed(after, y) <==> Listed(lists, y) || y == x)
  {
    var after := lists[sh := lists[sh] + [x]];
    assert forall k, i, y :: At(after, k, i, y) <==> At(lists, k, i, y) || (k == sh && i == |lists[sh]| && y == x);
    forall y ensures Listed(after, y) <==> Listed(lists, y) || y == x {
      if k, i :| At(lists, k, i, y) { assert At(after, k, i, y); }
      if k, i :| At(after, k, i, y) { assert At(lists, k, i, y) || y == x; }
      if y == x { assert At(after, sh, |lists[sh]|, x); }
    }
  }

  /** Under the lock the remembered list is the list, so the store appends one slab and loses none. */
  lemma {:induction false} StepPublish(s: State, t: nat)
    requires Inv(s) && t < |s.pcs| && s.pcs[t].Rewound? && Ready(s, t)
    ensures var pc := s.pcs[t];
            Inv(SetPc(s.(lists := s.lists[pc.shard := pc.list + [pc.slab]]), t, Published(pc.shard, pc.size, pc.slab)))
  {
    var pc := s.pcs[t];
    var sh, x, pc1 := pc.shard, pc.slab, Published(pc.shard, pc.size, pc.slab);
    assert PcOk(s.lists, pc) && InHand(s.pcs, t, x);
    var lists, pcs := s.lists[sh := s.lists[sh] + [x]], s.pcs[t := pc1];
    ListedAfter(s.lists, sh, x);
    assert Unique(lists);
    forall u, y | InHand(pcs, u, y) ensures InHand(s.pcs, u, y) && y != x {
      assert u != t && InHand(s.pcs, u, y);
    }
    assert Homes(s.offs, lists, s.pools, pcs);
    assert forall k: nat :: Holding(pcs, t, k) ==> Holding(s.pcs, t, k);
    LocksFrame(s.locks, s.pcs, t, pc1);
    assert Holding(s.pcs, t, sh);
    forall u | 0 <= u < |pcs| ensures PcOk(lists, pcs[u]) {
      assert PcOk(s.lists, s.pcs[u]);
      if u != t && pcs[u] != Idle && pcs[u].shard == sh { assert !Holding(s.pcs, u, sh); }
    }
    assert GivenOk(s.offs, lists, s.given);
  }

  lemma {:induction false} StepLast(s: State, t: nat)
    requires Inv(s) && t < |s.pcs| && s.pcs[t].Published? && Ready(s, t)
    ensures Inv(SetPc(Add(s, s.pcs[t].slab, s.pcs[t].size).0, t, Leaving(s.pcs[t].shard)))
  {
    var pc := s.pcs[t];
    var pc1 := Leaving(pc.shard);
    assert PcOk(s.lists, pc);
    var i :| 0 <= i < |s.lists[pc.shard]| && s.lists[pc.shard][i] == pc.slab;
    assert At(s.lists, pc.shard, i, pc.slab);
    AddKeeps(s, pc.slab, pc.size);
    var after := Add(s, pc.slab, pc.size).0;
    HomesFrame(s.offs, after.offs, s.lists, s.pools, s.pcs, t, pc1);
    assert forall k: nat :: Holding(s.pcs[t := pc1], t, k) ==> Holding(s.pcs, t, k);
    LocksFrame(s.locks, s.pcs, t, pc1);
  }

  /** Every step of every thread keeps the invariant. */
  lemma {:induction false} StepInv(s: State, t: nat, a: Action)
    requires Inv(s) && t < |s.pcs|
    ensures Ready(s, t) && Inv(Exec(s, t, a))
  {
    ReadyWhenInv(s, t);
    assert PcOk(s.lists, s.pcs[t]);
    match s.pcs[t]
    case Idle =>
      if a.Call? && a.shard < |s.lists| { StepQuiet(s, t, Entered(a.shard, a.size)); }
    case Entered(sh, size) => StepQuiet(s, t, Scanning(sh, size, s.lists[sh], 0, false));
    case Scanning(sh, size, list, i, locked) =>
      if i < |list| {
        StepScan(s, t, a);
      } else if !locked {
        StepQuiet(s, t, Waiting(sh, size));
      } else if a.Go? {
        StepTake(s, t, a.pick);
      }
    case Waiting(sh, size) => if !s.locks[sh] { StepLock(s, t, sh, size); }
    case Locked(sh, size) =>
      var pc := Scanning(sh, size, s.lists[sh], 0, true);
      assert forall k: nat :: Holding(s.pcs[t := pc], t, k) ==> Holding(s.pcs, t, k);
      StepQuiet(s, t, pc);
    case Got(_, _, _, _) => StepRewind(s, t);
    case Rewound(_, _, _, _) => StepPublish(s, t);
    case Published(_, _, _) => StepLast(s, t);
    case Leaving(sh) => StepUnlock(s, t, sh);
  }

  // ---- Whole runs ----------------------------------------------------------------------------------

  datatype Move = Move(thread: nat, action: Action)

  /** After a reset: empty lists, free locks, idle threads, and pools of distinct slabs at any offsets. */
  ghost predicate Initial(s: State) {
    && |s.lists| == |s.pools| == |s.locks|
    && (forall sh :: 0 <= sh < |s.lists| ==> s.lists[sh] == [] && !s.locks[sh])
    && (forall t :: 0 <= t < |s.pcs| ==> s.pcs[t] == Idle)
    && (forall sh, x :: Pooled(s.pools, sh, x) ==> x in s.offs)
    && (forall sh, sh2, x :: Pooled(s.pools, sh, x) && Pooled(s.pools, sh2, x) ==> sh == sh2)
    && s.given == []
  }

  /** The states of a run, each from the one before by one step of one thread. */
  ghost predicate IsRun(run: seq<State>, moves: seq<Move>) {
    && |run| == |moves| + 1
    && Initial(run[0])
    && forall i :: 0 <= i < |moves| ==>
         && moves[i].thread < |run[i].pcs| && |run[i].lists| == |run[i].pools| == |run[i].locks|
         && Ready(run[i], moves[i].thread) && NoWrap(run[i], moves[i].thread)
         && run[i + 1] == Exec(run[i], moves[i].thread, moves[i].action)
  }

  lemma {:induction false} RunInv(run: seq<State>, moves: seq<Move>, n: nat)
    requires IsRun(run, moves) && n < |run|
    ensures Inv(run[n])
  {
    if n == 0 {
      assert forall x :: !Listed(run[0].lists, x);
      assert forall t, x :: !InHand(run[0].pcs, t, x);
      assert forall t, sh: nat :: !Holding(run[0].pcs, t, sh);
    } else {
      RunInv(run, moves, n - 1);
      StepInv(run[n - 1], moves[n - 1].thread, moves[n - 1].action);
    }
  }

  /** In every interleaving the ranges returned are disjoint, each inside one slab; no slab is in two places
      of the shard lists; and a step never rewinds or removes a slab that is in a list. */
  lemma {:induction false} RangesAreDisjoint(run: seq<State>, moves: seq<Move>, n: nat)
    requires IsRun(run, moves) && n < |run|
    ensures var s := run[n];
            && Disjoint(s.given) && Unique(s.lists)
            && (forall i :: 0 <= i < |s.given| ==> 0 < s.given[i].size && s.given[i].at + s.given[i].size <= 65536)
            && (forall x :: Listed(s.lists, x) ==> x in s.offs)
  {
    RunInv(run, moves, n);
  }

  lemma {:induction false} ListedSlabsAreNeverRewound(run: seq<State>, moves: seq<Move>, n: nat, x: Slab)
    requires IsRun(run, moves) && n < |moves| && Listed(run[n].lists, x)
    ensures Listed(run[n + 1].lists, x) && x in run[n].offs && x in run[n + 1].offs
            && run[n].offs[x] <= run[n + 1].offs[x]
  {
    RunInv(run, moves, n);
    RunInv(run, moves, n + 1);
    var s, t := run[n], moves[n].thread;
    assert PcOk(s.lists, s.pcs[t]);
    if s.pcs[t].Got? || s.pcs[t].Rewound? {
      assert InHand(s.pcs, t, s.pcs[t].slab);
      if s.pcs[t].Rewound? { ListedAfter(s.lists, s.pcs[t].shard, s.pcs[t].slab); }
    }
  }

  // ---- Sizes ---------------------------------------------------------------------------------------

  /** The size that thread `t` asked for in its last call. */
  ghost function Asked(run: seq<State>, moves: seq<Move>, n: nat, t: nat): nat
    requires n <= |moves| && n <= |run| && forall i :: 0 <= i < n ==> t < |run[i].pcs|
  {
    if n == 0 then 0
    else if moves[n - 1].thread == t && run[n - 1].pcs[t].Idle? && moves[n - 1].action.Call? then
      moves[n - 1].action.size
    else Asked(run, moves, n - 1, t)
  }

  /** The size that a thread works on, if it works on one. */
  predicate WorksOn(pc: Pc, size: nat) {
    pc.Idle? || pc.Leaving? || pc.size == size
  }

  lemma {:induction false} SizeIsAsked(run: seq<State>, moves: seq<Move>, n: nat, t: nat)
    requires IsRun(run, moves) && n < |run| && t < |run[0].pcs|
    ensures (forall i :: 0 <= i <= n ==> t < |run[i].pcs|) && WorksOn(run[n].pcs[t], Asked(run, moves, n, t))
  {
    if n > 0 {
      SizeIsAsked(run, moves, n - 1, t);
      StepSize(run[n - 1], moves[n - 1].thread, moves[n - 1].action, t, Asked(run, moves, n - 1, t));
    }
  }

  lemma {:induction false} StepThreads(s: State, u: nat, a: Action)
    requires u < |s.pcs| && |s.lists| == |s.pools| == |s.locks| && Ready(s, u)
    ensures |Exec(s, u, a).pcs| == |s.pcs|
  {
  }

  lemma {:induction false} StepSize(s: State, u: nat, a: Action, t: nat, size: nat)
    requires u < |s.pcs| && t < |s.pcs| && |s.lists| == |s.pools| == |s.locks| && Ready(s, u)
    requires WorksOn(s.pcs[t], size)
    ensures |Exec(s, u, a).pcs| == |s.pcs|
    ensures WorksOn(Exec(s, u, a).pcs[t], if u == t && s.pcs[t].Idle? && a.Call? then a.size else size)
  {
  }

  lemma {:induction false} SameThreads(run: seq<State>, moves: seq<Move>, n: nat)
    requires IsRun(run, moves) && n < |run|
    ensures |run[n].pcs| == |run[0].pcs|
  {
    if n > 0 {
      SameThreads(run, moves, n - 1);
      StepThreads(run[n - 1], moves[n - 1].thread, moves[n - 1].action);
    }
  }

  ghost predicate GotRange(s: State, s1: State, x: Slab, size: nat) {
    x in s.offs && s1.given == s.given + [Range(x, s.offs[x], size)] && s1.offs == s.offs[x := s.offs[x] + size]
  }

  /** What a step of thread `t`, whose call asked for `size` bytes, returns: a search that ends returns a range of
      that size from where the slab's offset was; so does the first try of a new slab, unless other threads have
      filled it; no other step returns anything. */
  ghost predicate ReturnsAsked(s: State, s1: State, t: nat, size: nat)
    requires t < |s.pcs| == |s1.pcs|
  {
    var before, now := s.pcs[t], s1.pcs[t];
    if before.Scanning? && (now.Idle? || now.Leaving?) && size > 0 then
      exists x :: x in before.list && GotRange(s, s1, x, size)
    else if before.Published? && size > 0 && before.slab in s.offs && s.offs[before.slab] + size <= 65536 then
      GotRange(s, s1, before.slab, size)
    else s1.given == s.given
  }

  lemma {:induction false} StepReturns(s: State, t: nat, a: Action, size: nat)
    requires t < |s.pcs| && |s.lists| == |s.pools| == |s.locks| && Ready(s, t) && WorksOn(s.pcs[t], size)
    ensures |Exec(s, t, a).pcs| == |s.pcs| && ReturnsAsked(s, Exec(s, t, a), t, size)
  {
    var pc := s.pcs[t];
    if pc.Scanning? && pc.next < |pc.list| {
      var x := pc.list[pc.next];
      assert x in pc.list;
      if size > 0 && s.offs[x] + size <= SLAB_SIZE { assert GotRange(s, Exec(s, t, a), x, size); }
    }
  }

  /** In every interleaving a range that is returned has the size that its call asked for. */
  lemma {:induction false} RangesAreAsAsked(run: seq<State>, moves: seq<Move>, n: nat)
    requires IsRun(run, moves) && n < |moves|
    ensures var t := moves[n].thread;
            && t < |run[n].pcs| == |run[n + 1].pcs| && (forall i :: 0 <= i < n ==> t < |run[i].pcs|)
            && ReturnsAsked(run[n], run[n + 1], t, Asked(run, moves, n, t))
  {
    var t := moves[n].thread;
    SameThreads(run, moves, n);
    SizeIsAsked(run, moves, n, t);
    StepReturns(run[n], t, moves[n].action, Asked(run, moves, n, t));
  }
}
