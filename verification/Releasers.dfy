/** Any number of releasers that take their owners off one block at the same time.

    Each releaser runs the retry loop of the owner mask: load the mask, compute what would be left, swap
    it in if the mask has not changed, else start over.  A step is one load or one compare-and-swap.
 */
module Releasers {
  import opened Words

  datatype Releaser = Start | Loaded(seen: Mask) | Done(left: Mask)

  datatype State = State(mask: Mask, at: seq<Releaser>)

  /** One atomic step of releaser `i`, who takes off `parts[i]`.  A releaser that is done stays done. */
  function Step(parts: seq<Mask>, s: State, i: nat): State
    requires i < |parts| == |s.at|
  {
    match s.at[i]
    case Start => s.(at := s.at[i := Loaded(s.mask)])
    case Loaded(seen) =>
      if s.mask == seen then State(seen - parts[i], s.at[i := Done(seen - parts[i])])
      else s.(at := s.at[i := Start])
    case Done(_) => s
  }

  /** The steps in the order of `schedule`; entries that name no releaser are ignored. */
  function Run(parts: seq<Mask>, s: State, schedule: seq<nat>): (r: State)
    requires |parts| == |s.at|
    ensures |r.at| == |parts|
    decreases |schedule|
  {
    if schedule == [] then s
    else Run(parts, if schedule[0] < |parts| then Step(parts, s, schedule[0]) else s, schedule[1..])
  }

  function Begin(mask: Mask, n: nat): State {
    State(mask, seq(n, i => Start))
  }

  ghost predicate HeldBy(parts: seq<Mask>, s: State, b: nat, i: nat) {
    i < |parts| == |s.at| && !s.at[i].Done? && b in parts[i]
  }

  /** The parts are non-empty and disjoint. */
  ghost predicate Separate(parts: seq<Mask>) {
    && (forall i :: 0 <= i < |parts| ==> parts[i] != {})
    && (forall i, j, b :: 0 <= i < j < |parts| && b in parts[i] ==> b !in parts[j])
  }

  ghost predicate SawZero(s: State, i: nat) {
    i < |s.at| && s.at[i] == Done({})
  }

  ghost predicate AllDone(s: State) {
    forall i :: 0 <= i < |s.at| ==> s.at[i].Done?
  }

  ghost predicate Inv(parts: seq<Mask>, s: State) {
    && |s.at| == |parts|
    && (forall b :: b in s.mask <==> exists i :: HeldBy(parts, s, b, i))
    && (forall i :: SawZero(s, i) ==> AllDone(s))
    && (AllDone(s) ==> exists i :: SawZero(s, i))
    && (forall i, j :: SawZero(s, i) && SawZero(s, j) ==> i == j)
  }

  lemma {:induction false} StepInv(parts: seq<Mask>, s: State, i: nat)
    requires Separate(parts) && Inv(parts, s) && i < |parts|
    ensures Inv(parts, Step(parts, s, i))
  {
    var t := Step(parts, s, i);
    if s.at[i].Loaded? && s.mask == s.at[i].seen {
      TakeOff(parts, s, i);
    } else {
      forall b ensures b in t.mask <==> exists j :: HeldBy(parts, t, b, j) {
        if j :| HeldBy(parts, s, b, j) { assert HeldBy(parts, t, b, j); }
        if j :| HeldBy(parts, t, b, j) { assert HeldBy(parts, s, b, j); }
      }
      assert forall j :: 0 <= j < |t.at| ==> (t.at[j].Done? <==> s.at[j].Done?);
      assert forall j :: SawZero(t, j) <==> SawZero(s, j);
      assert AllDone(t) <==> AllDone(s);
    }
  }

  /** A swap that succeeds takes off exactly the owners of the releaser. */
  lemma {:induction false} TakeOff(parts: seq<Mask>, s: State, i: nat)
    requires Separate(parts) && Inv(parts, s) && i < |parts| && !s.at[i].Done?
    ensures Inv(parts, State(s.mask - parts[i], s.at[i := Done(s.mask - parts[i])]))
  {
    var t := State(s.mask - parts[i], s.at[i := Done(s.mask - parts[i])]);
    forall b ensures b in t.mask <==> exists j :: HeldBy(parts, t, b, j) {
      if b in t.mask {
        var j :| HeldBy(parts, s, b, j);
        assert HeldBy(parts, t, b, j);
      }
      if j :| HeldBy(parts, t, b, j) {
        assert HeldBy(parts, s, b, j);
        assert b !in parts[i];
      }
    }
    assert !AllDone(s);
    assert forall j :: SawZero(t, j) && j != i ==> SawZero(s, j);
    assert forall j :: SawZero(t, j) ==> j == i && t.mask == {};
    forall j | 0 <= j < |t.at| && !t.at[j].Done? ensures t.mask != {} {
      var b :| b in parts[j];
      assert HeldBy(parts, t, b, j);
      assert b in t.mask;
    }
    if AllDone(t) {
      assert forall b :: b !in t.mask;
      assert SawZero(t, i);
    }
  }

  lemma {:induction false} RunInv(parts: seq<Mask>, s: State, schedule: seq<nat>)
    requires Separate(parts) && Inv(parts, s)
    ensures Inv(parts, Run(parts, s, schedule))
    decreases |schedule|
  {
    if schedule != [] {
      if schedule[0] < |parts| {
        StepInv(parts, s, schedule[0]);
      }
      RunInv(parts, if schedule[0] < |parts| then Step(parts, s, schedule[0]) else s, schedule[1..]);
    }
  }

  /** In every interleaving nobody sees zero while a releaser is still at work, and once all are done
      exactly one of them has seen it. */
  lemma {:induction false} ExactlyOneSeesZero(parts: seq<Mask>, mask: Mask, schedule: seq<nat>)
    requires Separate(parts) && parts != []
    requires forall b :: b in mask <==> exists i :: 0 <= i < |parts| && b in parts[i]
    ensures var s := Run(parts, Begin(mask, |parts|), schedule);
            && ((exists i :: SawZero(s, i)) <==> AllDone(s))
            && (forall i, j :: SawZero(s, i) && SawZero(s, j) ==> i == j)
            && (AllDone(s) ==> s.mask == {})
  {
    var s := Begin(mask, |parts|);
    forall b ensures b in s.mask <==> exists i :: HeldBy(parts, s, b, i) {
      if b in s.mask {
        var i :| 0 <= i < |parts| && b in parts[i];
        assert HeldBy(parts, s, b, i);
      }
    }
    assert !s.at[0].Done?;
    RunInv(parts, s, schedule);
    var t := Run(parts, s, schedule);
    if AllDone(t) {
      assert forall b :: b !in t.mask;
    }
  }
}
