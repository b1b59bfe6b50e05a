/** The zeroizing arena: a bump allocator over OS pages that clears them when it rewinds. */
module Secure {
  import opened Words

  // ---- What callers see ----------------------------------------------------------------------------

  /** The pages and how many bytes of them were asked for since the last reset. */
  datatype Pages = Pages(mem: seq<Byte>, off: nat)

  datatype Op = Alloc(size: int) | Store(at: nat, bytes: seq<Byte>) | Reset

  /** A slice is shown with the bytes it has when it is handed out. */
  datatype Outcome = Given(at: nat, bytes: seq<Byte>) | Done | Failed(error: Error)

  function Zeros(n: nat): (r: seq<Byte>)
    ensures |r| == n && forall i :: 0 <= i < n ==> r[i] == 0
  {
    seq(n, i => 0)
  }

  function Splice(mem: seq<Byte>, at: nat, bytes: seq<Byte>): (r: seq<Byte>)
    requires at + |bytes| <= |mem|
    ensures |r| == |mem|
    ensures forall i :: 0 <= i < |r| ==> r[i] == if at <= i < at + |bytes| then bytes[i - at] else mem[i]
  {
    mem[..at] + bytes + mem[at + |bytes|..]
  }

  /** Callers write only to slices handed out since the last reset. */
  predicate Legal(s: Pages, op: Op) {
    match op
    case Alloc(size) => s.off + size <= MAX_INT
    case Store(at, bytes) => at + |bytes| <= s.off && at + |bytes| <= |s.mem|
    case Reset => true
  }

  function Step(zeroize: bool, s: Pages, op: Op): (Pages, Outcome)
    requires Legal(s, op)
  {
    match op
    case Alloc(size) =>
      if size < 0 then (s, Failed(ErrInvalidSize))
      else if size == 0 then (s, Given(0, []))
      else
        var next := s.off + size;
        (s.(off := next), if next > |s.mem| then Failed(ErrOutOfMemory) else Given(s.off, s.mem[s.off..next]))
    case Store(at, bytes) => (s.(mem := Splice(s.mem, at, bytes)), Done)
    case Reset => (Pages(if zeroize then Zeros(|s.mem|) else s.mem, 0), Done)
  }

  ghost predicate LegalRun(zeroize: bool, s: Pages, script: seq<Op>)
    decreases |script|
  {
    script != [] ==> Legal(s, script[0]) && LegalRun(zeroize, Step(zeroize, s, script[0]).0, script[1..])
  }

  ghost function Run(zeroize: bool, s: Pages, script: seq<Op>): seq<Outcome>
    requires LegalRun(zeroize, s, script)
    decreases |script|
  {
    if script == [] then []
    else
      var (after, o) := Step(zeroize, s, script[0]);
      [o] + Run(zeroize, after, script[1..])
  }

  ghost predicate Clean(o: Outcome) {
    o.Given? ==> forall i :: 0 <= i < |o.bytes| ==> o.bytes[i] == 0
  }

  ghost predicate AllClean(outcomes: seq<Outcome>) {
    forall i :: 0 <= i < |outcomes| ==> Clean(outcomes[i])
  }

  /** Nothing beyond the bytes handed out has been written. */
  ghost predicate Untouched(s: Pages) {
    forall i :: s.off <= i < |s.mem| ==> s.mem[i] == 0
  }

  lemma {:induction false} StepClean(s: Pages, op: Op)
    requires Legal(s, op) && Untouched(s)
    ensures Untouched(Step(true, s, op).0) && Clean(Step(true, s, op).1)
  {
  }

  /** With zeroizing on, every slice of every run reads all zero when it is handed out. */
  lemma {:induction false} HandedOutClean(s: Pages, script: seq<Op>)
    requires LegalRun(true, s, script) && Untouched(s)
    ensures AllClean(Run(true, s, script))
    decreases |script|
  {
    if script != [] {
      StepClean(s, script[0]);
      var (after, o) := Step(true, s, script[0]);
      HandedOutClean(after, script[1..]);
      assert Run(true, s, script) == [o] + Run(true, after, script[1..]);
    }
  }

  /** Without it, one byte written before a reset is read back after it. */
  lemma {:induction false} DirtyWithoutZeroize(size: nat, script: seq<Op>)
    requires 0 < size && script == [Alloc(1), Store(0, [7]), Reset, Alloc(1)]
    ensures LegalRun(false, Pages(Zeros(size), 0), script)
    ensures !AllClean(Run(false, Pages(Zeros(size), 0), script))
  {
    var s0 := Pages(Zeros(size), 0);
    var s1 := s0.(off := 1);
    var s2 := Pages(Splice(s1.mem, 0, [7]), 1);
    var s3 := s2.(off := 0);
    var s4 := s3.(off := 1);
    assert s2.mem[0] == 7;
    assert script[1..] == [Store(0, [7]), Reset, Alloc(1)];
    assert script[1..][1..] == [Reset, Alloc(1)];
    assert script[1..][1..][1..] == [Alloc(1)];
    assert script[1..][1..][1..][1..] == [];
    assert LegalRun(false, s4, []);
    assert LegalRun(false, s3, [Alloc(1)]);
    assert LegalRun(false, s2, [Reset, Alloc(1)]);
    assert LegalRun(false, s1, [Store(0, [7]), Reset, Alloc(1)]);
    assert Run(false, s3, [Alloc(1)])[0] == Given(0, s3.mem[0..1]);
    assert Run(false, s2, [Reset, Alloc(1)])[1] == Given(0, s3.mem[0..1]);
    assert Run(false, s1, [Store(0, [7]), Reset, Alloc(1)])[2] == Given(0, s3.mem[0..1]);
    assert Run(false, s0, script)[3] == Given(0, s3.mem[0..1]);
    assert s3.mem[0..1][0] == 7;
  }

  /** The promise holds for every legal run of a fresh arena exactly when zeroizing is on. */
  lemma {:induction false} CleanExactlyWhenZeroizing(zeroize: bool, size: nat)
    requires 0 < size
    ensures zeroize <==> forall script :: LegalRun(zeroize, Pages(Zeros(size), 0), script)
                           ==> AllClean(Run(zeroize, Pages(Zeros(size), 0), script))
  {
    if zeroize {
      forall script | LegalRun(zeroize, Pages(Zeros(size), 0), script)
        ensures AllClean(Run(zeroize, Pages(Zeros(size), 0), script))
      {
        HandedOutClean(Pages(Zeros(size), 0), script);
      }
    } else {
      DirtyWithoutZeroize(size, [Alloc(1), Store(0, [7]), Reset, Alloc(1)]);
    }
  }

  // ---- What the calls alone say ----------------------------------------------------------------------

  function AskedNext(asked: nat, op: Op): nat {
    match op
    case Alloc(size) => if size > 0 then asked + size else asked
    case Store(_, _) => asked
    case Reset => 0
  }

  /** The bytes asked for since the last reset, by calls that fit and calls that did not. */
  function AskedSince(asked: nat, script: seq<Op>): nat
    decreases |script|
  {
    if script == [] then asked else AskedSince(AskedNext(asked, script[0]), script[1..])
  }

  function ByteNext(zeroize: bool, byte: Byte, op: Op, at: nat): Byte {
    match op
    case Alloc(_) => byte
    case Store(from, bytes) => if from <= at < from + |bytes| then bytes[at - from] else byte
    case Reset => if zeroize then 0 else byte
  }

  /** The byte at an offset: the last one stored there, unless it has been cleared since. */
  function ByteSince(zeroize: bool, byte: Byte, script: seq<Op>, at: nat): Byte
    decreases |script|
  {
    if script == [] then byte else ByteSince(zeroize, ByteNext(zeroize, byte, script[0], at), script[1..], at)
  }

  /** What an allocation answers when `asked` bytes were asked for since the last reset: the errors, nothing for
      nothing, or a slice of the size asked for that begins where the earlier ones end. */
  ghost predicate AllocAnswer(capacity: nat, asked: nat, size: int, o: Outcome) {
    if size < 0 then o == Failed(ErrInvalidSize)
    else if size == 0 then o == Given(0, [])
    else if asked + size > capacity then o == Failed(ErrOutOfMemory)
    else o.Given? && o.at == asked && |o.bytes| == size
  }

  lemma {:induction false} StepFollows(zeroize: bool, s: Pages, op: Op)
    requires Legal(s, op)
    ensures var after := Step(zeroize, s, op).0;
            && |after.mem| == |s.mem| && after.off == AskedNext(s.off, op)
            && forall at :: 0 <= at < |s.mem| ==> after.mem[at] == ByteNext(zeroize, s.mem[at], op, at)
  {
  }

  lemma {:induction false} RunTail(zeroize: bool, s: Pages, script: seq<Op>)
    requires LegalRun(zeroize, s, script) && script != []
    ensures LegalRun(zeroize, Step(zeroize, s, script[0]).0, script[1..])
    ensures Run(zeroize, s, script)
            == [Step(zeroize, s, script[0]).1] + Run(zeroize, Step(zeroize, s, script[0]).0, script[1..])
  {
  }

  ghost function After(zeroize: bool, s: Pages, script: seq<Op>): Pages
    requires LegalRun(zeroize, s, script)
    decreases |script|
  {
    if script == [] then s else After(zeroize, Step(zeroize, s, script[0]).0, script[1..])
  }

  /** A call answers as the pages stand after the calls before it. */
  lemma {:induction false} AnswerAt(zeroize: bool, s: Pages, script: seq<Op>, n: nat)
    requires LegalRun(zeroize, s, script) && n < |script|
    ensures LegalRun(zeroize, s, script[..n]) && Legal(After(zeroize, s, script[..n]), script[n])
    ensures |Run(zeroize, s, script)| == |script|
    ensures Run(zeroize, s, script)[n] == Step(zeroize, After(zeroize, s, script[..n]), script[n]).1
    decreases |script|
  {
    var after := Step(zeroize, s, script[0]).0;
    RunTail(zeroize, s, script);
    if |script| > 1 { AnswerAt(zeroize, after, script[1..], if n == 0 then 0 else n - 1); }
    if n == 0 {
      assert script[..0] == [];
    } else {
      assert script[..n][0] == script[0] && script[..n][1..] == script[1..][..n - 1];
    }
  }

  /** The pages stand as the calls say. */
  lemma {:induction false} PagesFollowTheCalls(zeroize: bool, s: Pages, script: seq<Op>)
    requires LegalRun(zeroize, s, script)
    ensures var last := After(zeroize, s, script);
            && |last.mem| == |s.mem| && last.off == AskedSince(s.off, script)
            && forall at :: 0 <= at < |s.mem| ==> last.mem[at] == ByteSince(zeroize, s.mem[at], script, at)
    decreases |script|
  {
    if script != [] {
      StepFollows(zeroize, s, script[0]);
      PagesFollowTheCalls(zeroize, Step(zeroize, s, script[0]).0, script[1..]);
    }
  }

  /** A slice lies in the pages and shows what the calls have left there. */
  ghost predicate HoldsWhatWasLeft(zeroize: bool, mem: seq<Byte>, script: seq<Op>, o: Outcome)
    requires o.Given?
  {
    && o.at + |o.bytes| <= |mem|
    && forall i :: 0 <= i < |o.bytes| ==> o.bytes[i] == ByteSince(zeroize, mem[o.at + i], script, o.at + i)
  }

  lemma {:induction false} SliceShows(zeroize: bool, mem: seq<Byte>, script: seq<Op>, now: seq<Byte>, o: Outcome)
    requires o.Given? && o.at + |o.bytes| <= |mem| == |now| && o.bytes == now[o.at..o.at + |o.bytes|]
    requires forall at :: 0 <= at < |mem| ==> now[at] == ByteSince(zeroize, mem[at], script, at)
    ensures HoldsWhatWasLeft(zeroize, mem, script, o)
  {
    forall i | 0 <= i < |o.bytes| ensures o.bytes[i] == ByteSince(zeroize, mem[o.at + i], script, o.at + i) {
      assert o.bytes[i] == now[o.at + i];
    }
  }

  /** In every legal run every allocation answers as the calls before it say: where its slice is, how long, what
      is in it, and exactly when there is none. */
  lemma {:induction false} AllocsFollowTheCalls(zeroize: bool, s: Pages, script: seq<Op>, n: nat)
    requires LegalRun(zeroize, s, script) && n < |script| && script[n].Alloc?
    ensures |Run(zeroize, s, script)| == |script|
    ensures AllocAnswer(|s.mem|, AskedSince(s.off, script[..n]), script[n].size, Run(zeroize, s, script)[n])
    ensures script[n].size > 0 && Run(zeroize, s, script)[n].Given? ==>
              HoldsWhatWasLeft(zeroize, s.mem, script[..n], Run(zeroize, s, script)[n])
  {
    AnswerAt(zeroize, s, script, n);
    PagesFollowTheCalls(zeroize, s, script[..n]);
    var now, o := After(zeroize, s, script[..n]), Run(zeroize, s, script)[n];
    if script[n].size > 0 && o.Given? { SliceShows(zeroize, s.mem, script[..n], now.mem, o); }
  }

  lemma {:induction false} AskedSnoc(asked: nat, script: seq<Op>, n: nat)
    requires n < |script|
    ensures AskedSince(asked, script[..n + 1]) == AskedNext(AskedSince(asked, script[..n]), script[n])
    decreases n
  {
    assert script[..n + 1][1..] == script[1..][..n];
    if n > 0 {
      assert script[..n][1..] == script[1..][..n - 1];
      AskedSnoc(AskedNext(asked, script[0]), script[1..], n - 1);
    }
  }

  lemma {:induction false} AskedGrows(asked: nat, script: seq<Op>, i: nat, j: nat)
    requires i <= j <= |script| && forall m :: i <= m < j ==> !script[m].Reset?
    ensures AskedSince(asked, script[..i]) <= AskedSince(asked, script[..j])
    decreases j
  {
    if i < j {
      AskedGrows(asked, script, i, j - 1);
      AskedSnoc(asked, script, j - 1);
    }
  }

  /** Slices given without a reset between them do not overlap: the later one begins at or beyond the end of the
      earlier one, and both lie inside the pages. */
  lemma {:induction false} SlicesAreDisjoint(zeroize: bool, s: Pages, script: seq<Op>, i: nat, j: nat)
    requires LegalRun(zeroize, s, script) && i < j < |script| && script[i].Alloc? && script[j].Alloc?
    requires script[i].size > 0 && script[j].size > 0 && forall m :: i < m < j ==> !script[m].Reset?
    requires |Run(zeroize, s, script)| == |script|
    requires Run(zeroize, s, script)[i].Given? && Run(zeroize, s, script)[j].Given?
    ensures var (a, b) := (Run(zeroize, s, script)[i], Run(zeroize, s, script)[j]);
            && |a.bytes| == script[i].size && |b.bytes| == script[j].size
            && a.at + |a.bytes| <= b.at && b.at + |b.bytes| <= |s.mem|
  {
    AllocsFollowTheCalls(zeroize, s, script, i);
    AllocsFollowTheCalls(zeroize, s, script, j);
    AskedSnoc(s.off, script, i);
    AskedGrows(s.off, script, i + 1, j);
  }

  // ---- The arena -----------------------------------------------------------------------------------

  /** Clears exactly `n` bytes from `ptr`: whole words while eight bytes are left, then single bytes. */
  method MemZero(mem: array<Byte>, ptr: nat, n: nat)
    requires ptr + n <= mem.Length
    modifies mem
    ensures forall i :: ptr <= i < ptr + n ==> mem[i] == 0
    ensures forall i :: 0 <= i < mem.Length && !(ptr <= i < ptr + n) ==> mem[i] == old(mem[i])
  {
    var di, cx := ptr, n;
    while cx >= 8
      invariant ptr <= di && di + cx == ptr + n
      invariant forall i :: ptr <= i < di ==> mem[i] == 0
      invariant forall i :: 0 <= i < mem.Length && !(ptr <= i < di) ==> mem[i] == old(mem[i])
    {
      forall i | di <= i < di + 8 { mem[i] := 0; }
      di, cx := di + 8, cx - 8;
    }
    while cx != 0
      invariant ptr <= di && di + cx == ptr + n
      invariant forall i :: ptr <= i < di ==> mem[i] == 0
      invariant forall i :: 0 <= i < mem.Length && !(ptr <= i < di) ==> mem[i] == old(mem[i])
    {
      mem[di] := 0;
      di, cx := di + 1, cx - 1;
    }
  }

  class Arena {
    const data: array<Byte>
    const zeroize: bool
    var off: nat

    ghost function Shows(): Pages
      reads this, data
    {
      Pages(data[..], off)
    }

    /** Fresh pages are zero. */
    constructor (capacity: nat, zeroize: bool)
      ensures fresh(data) && Shows() == Pages(Zeros(capacity), 0) && this.zeroize == zeroize
    {
      data := new Byte[capacity](_ => 0);
      this.zeroize, off := zeroize, 0;
    }

    method Alloc(size: int) returns (o: Outcome)
      requires Legal(Shows(), Op.Alloc(size))
      modifies this`off
      ensures (Shows(), o) == Step(zeroize, old(Shows()), Op.Alloc(size))
    {
      if size < 0 {
        return Failed(ErrInvalidSize);
      }
      if size == 0 {
        return Given(0, []);
      }
      var next := off + size;
      var curr := next - size;
      off := next;
      if next > data.Length {
        return Failed(ErrOutOfMemory);
      }
      return Given(curr, data[curr..next]);
    }

    /** A caller writes through a slice it was given. */
    method Store(at: nat, bytes: seq<Byte>) returns (o: Outcome)
      requires Legal(Shows(), Op.Store(at, bytes))
      modifies data
      ensures (Shows(), o) == Step(zeroize, old(Shows()), Op.Store(at, bytes))
    {
      forall i | 0 <= i < |bytes| { data[at + i] := bytes[i]; }
      assert data[..] == Splice(old(data[..]), at, bytes);
      return Done;
    }

    method Reset() returns (o: Outcome)
      modifies this`off, data
      ensures (Shows(), o) == Step(zeroize, old(Shows()), Op.Reset)
    {
      if zeroize && data.Length != 0 {
        MemZero(data, 0, data.Length);
      }
      assert zeroize ==> data[..] == Zeros(data.Length);
      off := 0;
      return Done;
    }

    /** Any legal sequence of calls and stores gives exactly the outcomes of the pages. */
    method Perform(script: seq<Op>) returns (outcomes: seq<Outcome>)
      requires LegalRun(zeroize, Shows(), script)
      modifies this, data
      ensures outcomes == Run(zeroize, old(Shows()), script)
      decreases |script|
    {
      if script == [] {
        return [];
      }
      var o;
      match script[0] {
        case Alloc(size) => o := Alloc(size);
        case Store(at, bytes) => o := Store(at, bytes);
        case Reset => o := Reset();
      }
      var rest := Perform(script[1..]);
      return [o] + rest;
    }
  }
}
