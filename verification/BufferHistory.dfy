/** What callers of buffers see: calls, their outcomes, and what a buffer holds because of them. */
module BufferHistory {
  import opened Words

  datatype Op = Write(buffer: nat, p: seq<Byte>) | Read(buffer: nat, room: nat) | Reset(buffer: nat)

  datatype Outcome = Wrote(ok: bool) | Got(bytes: seq<Byte>) | Eof | Cleared

  /** A buffer's bytes, and how many of them have been read. */
  datatype View = View(data: seq<Byte>, read: nat)

  function Min(a: nat, b: nat): (r: nat)
    ensures r <= a && r <= b && (r == a || r == b)
  {
    if a < b then a else b
  }

  /** What a call does to the buffer it names, given its outcome. */
  function Next(v: View, op: Op, o: Outcome): View {
    match op
    case Write(_, p) => if o == Wrote(true) then v.(data := v.data + p) else v
    case Read(_, _) => if o.Got? then v.(read := v.read + |o.bytes|) else v
    case Reset(_) => View([], 0)
  }

  /** The outcomes a buffer with view `v` may give; only memory decides between the two for a write. */
  predicate Explains(v: View, op: Op, o: Outcome) {
    match op
    case Write(_, p) => o.Wrote? && (p == [] ==> o.ok)
    case Read(_, room) =>
      if v.read >= |v.data| then o == Eof
      else o == Got(v.data[v.read..v.read + Min(room, |v.data| - v.read)])
    case Reset(_) => o == Cleared
  }

  /** Buffer `i` after the calls of `script`: only calls that name it count. */
  function ViewOf(start: View, i: nat, script: seq<Op>, outcomes: seq<Outcome>): View
    requires |script| == |outcomes|
    decreases |script|
  {
    if script == [] then start
    else
      var n := |script| - 1;
      var v := ViewOf(start, i, script[..n], outcomes[..n]);
      if script[n].buffer == i then Next(v, script[n], outcomes[n]) else v
  }

  /** Every outcome is one that the buffer named by the call may give at that point. */
  ghost predicate Explained(start: seq<View>, script: seq<Op>, outcomes: seq<Outcome>)
    requires |script| == |outcomes|
    decreases |script|
  {
    script == [] ||
    var n := |script| - 1;
    && Explained(start, script[..n], outcomes[..n])
    && script[n].buffer < |start|
    && Explains(ViewOf(start[script[n].buffer], script[n].buffer, script[..n], outcomes[..n]), script[n], outcomes[n])
  }

  // ---- What the views mean -------------------------------------------------------------------------

  /** The position after the last reset of buffer `i`. */
  function SinceReset(i: nat, script: seq<Op>): (r: nat)
    ensures r <= |script|
    decreases |script|
  {
    if script == [] then 0
    else if script[|script| - 1] == Reset(i) then |script|
    else SinceReset(i, script[..|script| - 1])
  }

  /** The bytes of the successful writes to buffer `i`, joined in order. */
  function Sent(i: nat, script: seq<Op>, outcomes: seq<Outcome>): seq<Byte>
    requires |script| == |outcomes|
  {
    if script == [] then []
    else
      (if script[0].Write? && script[0].buffer == i && outcomes[0] == Wrote(true) then script[0].p else [])
      + Sent(i, script[1..], outcomes[1..])
  }

  /** The bytes that reads from buffer `i` returned, joined in order. */
  function Received(i: nat, script: seq<Op>, outcomes: seq<Outcome>): seq<Byte>
    requires |script| == |outcomes|
  {
    if script == [] then []
    else
      (if script[0].Read? && script[0].buffer == i && outcomes[0].Got? then outcomes[0].bytes else [])
      + Received(i, script[1..], outcomes[1..])
  }

  /** Dropping the first element and cutting after `n` elements can be done in either order. */
  lemma {:induction false} Cut<T>(s: seq<T>, n: nat)
    requires 0 < n <= |s|
    ensures s[1..][..n - 1] == s[..n][1..] && s[1..][n - 1..] == s[n..]
  {
  }

  lemma {:induction false} Regroup(a: seq<Byte>, b: seq<Byte>, c: seq<Byte>)
    ensures (a + b) + c == a + (b + c)
  {
  }

  lemma {:induction false} SentSplit(i: nat, script: seq<Op>, outcomes: seq<Outcome>, n: nat)
    requires |script| == |outcomes| && n <= |script|
    ensures Sent(i, script, outcomes) == Sent(i, script[..n], outcomes[..n]) + Sent(i, script[n..], outcomes[n..])
  {
    if n == 0 {
      assert script[0..] == script && outcomes[0..] == outcomes;
    } else {
      SentSplit(i, script[1..], outcomes[1..], n - 1);
      Cut(script, n);
      Cut(outcomes, n);
      assert script[..n][0] == script[0] && outcomes[..n][0] == outcomes[0];
      Regroup(if script[0].Write? && script[0].buffer == i && outcomes[0] == Wrote(true) then script[0].p else [],
              Sent(i, script[..n][1..], outcomes[..n][1..]), Sent(i, script[n..], outcomes[n..]));
    }
  }

  lemma {:induction false} ReceivedSplit(i: nat, script: seq<Op>, outcomes: seq<Outcome>, n: nat)
    requires |script| == |outcomes| && n <= |script|
    ensures Received(i, script, outcomes)
            == Received(i, script[..n], outcomes[..n]) + Received(i, script[n..], outcomes[n..])
  {
    if n == 0 {
      assert script[0..] == script && outcomes[0..] == outcomes;
    } else {
      ReceivedSplit(i, script[1..], outcomes[1..], n - 1);
      Cut(script, n);
      Cut(outcomes, n);
      assert script[..n][0] == script[0] && outcomes[..n][0] == outcomes[0];
      Regroup(if script[0].Read? && script[0].buffer == i && outcomes[0].Got? then outcomes[0].bytes else [],
              Received(i, script[..n][1..], outcomes[..n][1..]), Received(i, script[n..], outcomes[n..]));
    }
  }

  /** The tail since the last reset, cut at the last call. */
  lemma {:induction false} TailCut(i: nat, script: seq<Op>, outcomes: seq<Outcome>)
    requires |script| == |outcomes| && script != [] && script[|script| - 1] != Reset(i)
    ensures var n := |script| - 1; var k := SinceReset(i, script);
            && k == SinceReset(i, script[..n])
            && Sent(i, script[k..], outcomes[k..])
               == Sent(i, script[..n][k..], outcomes[..n][k..]) + Sent(i, script[n..], outcomes[n..])
            && Received(i, script[k..], outcomes[k..])
               == Received(i, script[..n][k..], outcomes[..n][k..]) + Received(i, script[n..], outcomes[n..])
  {
    var n, k := |script| - 1, SinceReset(i, script);
    SentSplit(i, script[k..], outcomes[k..], n - k);
    ReceivedSplit(i, script[k..], outcomes[k..], n - k);
    Tails(script, n, k);
    Tails(outcomes, n, k);
  }

  lemma {:induction false} Tails<T>(s: seq<T>, n: nat, k: nat)
    requires k <= n <= |s|
    ensures s[k..][..n - k] == s[..n][k..] && s[k..][n - k..] == s[n..]
  {
  }

  lemma {:induction false} WriteStep(start: View, i: nat, script: seq<Op>, outcomes: seq<Outcome>)
    requires |script| == |outcomes| && script != [] && script[|script| - 1] != Reset(i)
    ensures var n := |script| - 1; var op := script[n];
            ViewOf(start, i, script, outcomes).data
            == ViewOf(start, i, script[..n], outcomes[..n]).data
               + if op.Write? && op.buffer == i && outcomes[n] == Wrote(true) then op.p else []
  {
  }

  /** A buffer holds exactly the bytes of its own successful writes since its last reset, in order. */
  lemma {:induction false} HoldsWhatWasWritten(start: View, i: nat, script: seq<Op>, outcomes: seq<Outcome>)
    requires |script| == |outcomes|
    ensures var k := SinceReset(i, script);
            ViewOf(start, i, script, outcomes).data
            == (if k == 0 then start.data else []) + Sent(i, script[k..], outcomes[k..])
    decreases |script|
  {
    if script != [] {
      var n := |script| - 1;
      if script[n] == Reset(i) {
        assert script[|script|..] == [];
      } else {
        HoldsWhatWasWritten(start, i, script[..n], outcomes[..n]);
        TailCut(i, script, outcomes);
        SentOne(i, script[n], outcomes[n], script[n..], outcomes[n..]);
        WriteStep(start, i, script, outcomes);
        Regroup(if SinceReset(i, script) == 0 then start.data else [],
                Sent(i, script[..n][SinceReset(i, script)..], outcomes[..n][SinceReset(i, script)..]),
                Sent(i, script[n..], outcomes[n..]));
      }
    } else {
      assert script[0..] == [];
    }
  }

  lemma {:induction false} SentOne(i: nat, op: Op, o: Outcome, script: seq<Op>, outcomes: seq<Outcome>)
    requires script == [op] && outcomes == [o]
    ensures Sent(i, script, outcomes) == if op.Write? && op.buffer == i && o == Wrote(true) then op.p else []
    ensures Received(i, script, outcomes) == if op.Read? && op.buffer == i && o.Got? then o.bytes else []
  {
    assert script[1..] == [] && outcomes[1..] == [];
  }

  lemma {:induction false} ReadStep(v: View, op: Op, o: Outcome)
    requires v.read <= |v.data| && Explains(v, op, o) && !op.Reset?
    ensures var w := Next(v, op, o);
            w.read <= |w.data| && w.data[..w.read] == v.data[..v.read] + if op.Read? && o.Got? then o.bytes else []
  {
  }

  /** What reads returned since the last reset is exactly the part of the buffer marked as read. */
  lemma {:induction false} ReadsInOrder(start: seq<View>, i: nat, script: seq<Op>, outcomes: seq<Outcome>)
    requires |script| == |outcomes| && i < |start| && Explained(start, script, outcomes)
    requires start[i] == View([], 0)
    ensures var k := SinceReset(i, script); var v := ViewOf(start[i], i, script, outcomes);
            v.read <= |v.data| && Received(i, script[k..], outcomes[k..]) == v.data[..v.read]
    decreases |script|
  {
    if script != [] {
      var n := |script| - 1;
      if script[n] == Reset(i) {
        assert script[|script|..] == [];
      } else {
        ReadsInOrder(start, i, script[..n], outcomes[..n]);
        TailCut(i, script, outcomes);
        SentOne(i, script[n], outcomes[n], script[n..], outcomes[n..]);
        if script[n].buffer == i {
          ReadStep(ViewOf(start[i], i, script[..n], outcomes[..n]), script[n], outcomes[n]);
        }
      }
    } else {
      assert script[0..] == [];
    }
  }

  /** Bytes read and bytes unread make up the bytes written, in order. */
  lemma {:induction false} ReadPlusUnreadIsWritten(start: seq<View>, i: nat, script: seq<Op>, outcomes: seq<Outcome>)
    requires |script| == |outcomes| && i < |start| && Explained(start, script, outcomes)
    requires start[i] == View([], 0)
    ensures var k := SinceReset(i, script); var v := ViewOf(start[i], i, script, outcomes);
            && v.read <= |v.data|
            && Received(i, script[k..], outcomes[k..]) + v.data[v.read..] == Sent(i, script[k..], outcomes[k..])
  {
    HoldsWhatWasWritten(start[i], i, script, outcomes);
    ReadsInOrder(start, i, script, outcomes);
  }
}
