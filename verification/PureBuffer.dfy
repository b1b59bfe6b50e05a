/** Growable buffers that share one bump arena.

    The arena is one byte array with an offset that only moves forward.  A buffer's slice is the part
    `[start, start + cap)` of that array, of which the first `len` bytes are in use.
 */
module PureBuffer {
  import opened Words
  import opened BufferHistory

  const FIRST_CAP: nat := 64

  datatype Slice = Slice(start: nat, cap: nat)

  class Arena {
    const buf: array<Byte>
    var off: nat

    constructor (capacity: int)
      ensures fresh(buf) && buf.Length == (if capacity < 0 then 0 else capacity) && off == 0
    {
      buf := new Byte[if capacity < 0 then 0 else capacity](_ => 0);
      off := 0;
    }

    /** Reserves bytes that nobody was given since the last reset.  A request that does not fit moves the
        offset all the same. */
    method Alloc(size: int) returns (r: Result<Slice>)
      requires off + size <= MAX_INT
      modifies this`off
      ensures size < 0 ==> r == Err(ErrInvalidSize)
      ensures size == 0 ==> r == Ok(Slice(0, 0))
      ensures off == old(off) + if size > 0 then size else 0
      ensures size > 0 ==> r == if off <= buf.Length then Ok(Slice(old(off), size)) else Err(ErrOutOfMemory)
    {
      if size < 0 {
        return Err(ErrInvalidSize);
      }
      if size == 0 {
        return Ok(Slice(0, 0));
      }
      off := off + size;
      if off > buf.Length {
        return Err(ErrOutOfMemory);
      }
      return Ok(Slice(off - size, size));
    }

    method Reset()
      modifies this`off
      ensures off == 0
    {
      off := 0;
    }
  }

  /** `n` doubled `j` times. */
  function Scaled(n: nat, j: nat): nat {
    if j == 0 then n else 2 * Scaled(n, j - 1)
  }

  lemma {:induction false} ScaledTwice(n: nat, i: nat, j: nat)
    ensures Scaled(Scaled(n, i), j) == Scaled(n, i + j)
  {
    if j != 0 { ScaledTwice(n, i, j - 1); }
  }

  lemma {:induction false} ScaledGrows(n: nat, i: nat, j: nat)
    requires i <= j
    ensures Scaled(n, i) <= Scaled(n, j)
  {
    if i < j { ScaledGrows(n, i, j - 1); }
  }

  ghost predicate Doubled(cap: nat) {
    exists j: nat :: cap == Scaled(FIRST_CAP, j)
  }

  /** The capacity that is doubled: an empty slice starts from 64 bytes. */
  function Basis(cap: nat): nat {
    if cap == 0 then FIRST_CAP else cap
  }

  /** `n` is the least doubling of `basis` that is at least `needed`. */
  ghost predicate LeastEnough(basis: nat, needed: nat, n: nat) {
    && needed <= n
    && (exists j: nat :: n == Scaled(basis, j))
    && (forall j: nat :: needed <= Scaled(basis, j) ==> n <= Scaled(basis, j))
  }

  /** The doubling loop ends with the least doubling of the basis that is enough. */
  method Doubling(cap: nat, needed: nat) returns (grown: nat)
    requires cap < needed
    ensures needed <= grown && 2 * cap <= grown && Basis(cap) <= grown
    ensures LeastEnough(Basis(cap), needed, grown)
    ensures grown == FIRST_CAP || grown < 2 * needed
    ensures cap == 0 || Doubled(cap) ==> Doubled(grown)
  {
    grown := Basis(cap);
    ghost var j: nat := 0;
    while grown < needed
      invariant 0 < grown == Scaled(Basis(cap), j)
      invariant j == 0 || Scaled(Basis(cap), j - 1) < needed
      decreases needed - grown
    {
      grown := grown * 2;
      j := j + 1;
    }
    forall i: nat | needed <= Scaled(Basis(cap), i) ensures grown <= Scaled(Basis(cap), i) {
      if i < j { ScaledGrows(Basis(cap), i, j - 1); } else { ScaledGrows(Basis(cap), j, i); }
    }
    ScaledGrows(Basis(cap), 0, j);
    if cap != 0 {
      ScaledGrows(cap, 1, j);
      if Doubled(cap) {
        var i: nat :| cap == Scaled(FIRST_CAP, i);
        ScaledTwice(FIRST_CAP, i, j);
      }
    }
  }

  /** The fields of a buffer. */
  datatype Fields = Fields(start: nat, len: nat, cap: nat, rOff: nat, peak: nat, handed: nat) {
    /** The slice is part of the arena that has been handed out. */
    ghost predicate Placed(off: nat, size: nat) {
      rOff <= len <= cap && start + cap <= off && start + cap <= size
    }

    /** The capacity is 0, 64, or a doubling of 64 below twice the largest length so far; and all the
        slices the buffer ever had are together less than twice the one it has. */
    ghost predicate Frugal() {
      && len <= peak
      && (cap == 0 ==> handed == 0)
      && (cap != 0 ==> Doubled(cap) && (cap == FIRST_CAP || cap < 2 * peak) && handed <= 2 * cap - FIRST_CAP)
    }

    /** The fields once the buffer is `n` bytes long. */
    function Longer(n: nat): Fields {
      this.(len := n, peak := if peak < n then n else peak)
    }
  }

  /** A set, so that Dafny does not take the predicate apart. */
  ghost function Frugals(): iset<Fields> {
    iset x: Fields | x.Frugal()
  }

  lemma {:induction false} FrugalInPlace(x: Fields, needed: nat)
    requires x in Frugals() && needed <= x.cap
    ensures x.Longer(needed) in Frugals()
  {
  }

  lemma {:induction false} FrugalGrown(x: Fields, start: nat, grown: nat, needed: nat)
    requires x in Frugals() && 2 * x.cap <= grown && Basis(x.cap) <= grown && (grown == FIRST_CAP || grown < 2 * needed)
    requires x.cap == 0 || Doubled(x.cap) ==> Doubled(grown)
    ensures x.(start := start, cap := grown, handed := x.handed + grown).Longer(needed) in Frugals()
  {
  }

  /** What a buffer with fields `x` shows of memory. */
  ghost function Shows(mem: seq<Byte>, x: Fields): View
    requires x.start + x.len <= |mem|
  {
    View(mem[x.start..x.start + x.len], x.rOff)
  }

  /** Bytes below `n` are the same. */
  ghost predicate SameBelow(before: seq<Byte>, after: seq<Byte>, n: nat) {
    |before| == |after| && forall i :: 0 <= i < |before| && i < n ==> after[i] == before[i]
  }

  /** Bytes outside the slice of `x` and below `off` are the same. */
  ghost predicate SameOutside(before: seq<Byte>, after: seq<Byte>, off: nat, x: Fields) {
    |before| == |after|
    && forall i :: 0 <= i < |before| && i < off && !(x.start <= i < x.start + x.cap) ==> after[i] == before[i]
  }

  lemma {:induction false} SameTwice(a: seq<Byte>, b: seq<Byte>, d: seq<Byte>, off: nat, x: Fields, y: Fields)
    requires SameBelow(a, b, off) && SameOutside(b, d, off, y)
    requires (y.start == x.start && y.cap == x.cap) || off <= y.start
    ensures SameOutside(a, d, off, x)
  {
  }

  /** The next `n` unread bytes, and what the buffer shows once they are read. */
  lemma {:induction false} ReadOn(mem: seq<Byte>, x: Fields, n: nat, bytes: seq<Byte>)
    requires x.start + x.len <= |mem| && x.rOff + n <= x.len && x in Frugals()
    requires bytes == mem[x.start + x.rOff..x.start + x.rOff + n]
    ensures bytes == Shows(mem, x).data[x.rOff..x.rOff + n]
    ensures Shows(mem, x.(rOff := x.rOff + n)) == Shows(mem, x).(read := x.rOff + n)
    ensures x.(rOff := x.rOff + n) in Frugals()
  {
    Within(mem, x.start, x.len, x.rOff, n);
  }

  lemma {:induction false} Within(mem: seq<Byte>, start: nat, len: nat, from: nat, n: nat)
    requires start + len <= |mem| && from + n <= len
    ensures mem[start..start + len][from..from + n] == mem[start + from..start + from + n]
  {
    var part, direct := mem[start..start + len][from..from + n], mem[start + from..start + from + n];
    assert |part| == |direct| && forall i :: 0 <= i < n ==> part[i] == direct[i];
  }

  class Buffer {
    const arena: Arena
    var start: nat
    var len: nat
    var cap: nat
    var rOff: nat

    /** The largest length the buffer ever had, and the arena bytes it was ever given. */
    ghost var peak: nat
    ghost var handed: nat

    ghost function Mem(): seq<Byte>
      reads arena.buf
    {
      arena.buf[..]
    }

    ghost function Now(): Fields
      reads this
    {
      Fields(start, len, cap, rOff, peak, handed)
    }

    ghost predicate Valid()
      reads this, arena
    {
      Placed() && Now() in Frugals()
    }

    ghost predicate Placed()
      reads this, arena
    {
      Now().Placed(arena.off, arena.buf.Length)
    }

    /** What callers see. */
    ghost function Contents(): View
      requires Placed()
      reads this, arena, arena.buf
    {
      Shows(Mem(), Now())
    }

    constructor (a: Arena)
      ensures Valid() && arena == a && cap == 0 && Contents() == View([], 0)
    {
      arena := a;
      start, len, cap, rOff, peak, handed := 0, 0, 0, 0, 0, 0;
    }

    /** Moves to a larger slice beyond everything handed out so far, with the same contents. */
    method Grow(needed: nat) returns (ok: bool)
      requires Valid() && cap < needed && arena.off + 2 * needed + FIRST_CAP <= MAX_INT
      modifies this`start, this`cap, this`handed, arena`off, arena.buf
      ensures Placed() && Contents() == old(Contents())
      ensures ok <==> arena.off <= arena.buf.Length
      ensures ok ==> needed <= cap && old(arena.off) <= start
      ensures ok ==> Now().Longer(needed) in Frugals()
      ensures !ok ==> start == old(start) && cap == old(cap) && handed == old(handed)
      ensures old(arena.off) <= arena.off <= old(arena.off) + 2 * needed + FIRST_CAP
      ensures SameBelow(old(Mem()), Mem(), old(arena.off))
    {
      var grown := Doubling(cap, needed);
      FrugalGrown(Now(), arena.off, grown, needed);
      ok := Relocate(grown);
    }

    /** Takes a new slice of `grown` bytes from the arena, if it has them, and moves there. */
    method Relocate(grown: nat) returns (ok: bool)
      requires Placed() && len <= grown && 0 < grown && arena.off + grown <= MAX_INT
      modifies this`start, this`cap, this`handed, arena`off, arena.buf
      ensures Placed() && Contents() == old(Contents())
      ensures arena.off == old(arena.off) + grown && (ok <==> arena.off <= arena.buf.Length)
      ensures Now() == if ok then old(Now()).(start := old(arena.off), cap := grown, handed := old(handed) + grown)
              else old(Now())
      ensures SameBelow(old(Mem()), Mem(), old(arena.off))
    {
      var r := arena.Alloc(grown);
      if r.Err? {
        return false;
      }
      Move(r.value);
      handed := handed + grown;
      return true;
    }

    /** Copies the bytes in use to a slice beyond the present one, and goes on from there. */
    method Move(to: Slice)
      requires Placed() && start + cap <= to.start && len <= to.cap
      requires to.start + to.cap <= arena.off && to.start + to.cap <= arena.buf.Length
      modifies this`start, this`cap, arena.buf
      ensures Placed() && start == to.start && cap == to.cap && Contents() == old(Contents())
      ensures SameBelow(old(Mem()), Mem(), to.start)
    {
      ghost var before, mem := Contents().data, Mem();
      forall i | 0 <= i < len { arena.buf[to.start + i] := arena.buf[start + i]; }
      start, cap := to.start, to.cap;
      assert forall i :: 0 <= i < len ==> Mem()[to.start + i] == before[i];
      assert Contents().data == before;
    }

    /** Sees to it that the slice holds `needed` bytes, in a larger one if it must. */
    method MakeRoom(needed: nat) returns (ok: bool)
      requires Valid() && arena.off + 2 * needed + FIRST_CAP <= MAX_INT
      modifies this`start, this`cap, this`handed, arena`off, arena.buf
      ensures Placed() && Contents() == old(Contents())
      ensures ok <==> needed <= old(cap) || arena.off <= arena.buf.Length
      ensures ok ==> needed <= cap && Now().Longer(needed) in Frugals()
      ensures !ok ==> Valid()
      ensures (start == old(start) && cap == old(cap)) || old(arena.off) <= start
      ensures needed <= old(cap) ==> arena.off == old(arena.off)
      ensures old(arena.off) <= arena.off <= old(arena.off) + 2 * needed + FIRST_CAP
      ensures SameBelow(old(Mem()), Mem(), old(arena.off))
    {
      if needed <= cap {
        FrugalInPlace(Now(), needed);
        return true;
      }
      ok := Grow(needed);
    }

    /** Appends all of `p`, or nothing when the arena is exhausted.  No byte changes outside the buffer's
        own slice and memory that nobody had. */
    method Write(p: seq<Byte>) returns (ok: bool)
      requires Valid() && arena.off + 2 * (len + |p|) + FIRST_CAP <= MAX_INT
      modifies this, arena`off, arena.buf
      ensures Valid() && Contents() == Next(old(Contents()), Op.Write(0, p), Wrote(ok))
      ensures ok <==> p == [] || old(len) + |p| <= old(cap) || arena.off <= arena.buf.Length
      ensures (start == old(start) && cap == old(cap)) || old(arena.off) <= start
      ensures p == [] || old(len) + |p| <= old(cap) ==> arena.off == old(arena.off)
      ensures old(arena.off) <= arena.off <= old(arena.off) + 2 * (old(len) + |p|) + FIRST_CAP
      ensures SameOutside(old(Mem()), Mem(), old(arena.off), old(Now()))
    {
      if |p| == 0 {
        assert Contents().data + p == Contents().data;
        return true;
      }
      ok := Extend(p);
    }

    method Extend(p: seq<Byte>) returns (ok: bool)
      requires Valid() && p != [] && arena.off + 2 * (len + |p|) + FIRST_CAP <= MAX_INT
      modifies this, arena`off, arena.buf
      ensures Valid() && Contents() == if ok then View(old(Contents()).data + p, old(rOff)) else old(Contents())
      ensures ok <==> old(len) + |p| <= old(cap) || arena.off <= arena.buf.Length
      ensures (start == old(start) && cap == old(cap)) || old(arena.off) <= start
      ensures old(len) + |p| <= old(cap) ==> arena.off == old(arena.off)
      ensures old(arena.off) <= arena.off <= old(arena.off) + 2 * (old(len) + |p|) + FIRST_CAP
      ensures SameOutside(old(Mem()), Mem(), old(arena.off), old(Now()))
    {
      ghost var before, off, x := Mem(), arena.off, Now();
      ok := MakeRoom(len + |p|);
      if ok {
        ghost var moved := Mem();
        Fill(p);
        SameTwice(before, moved, Mem(), off, x, Now());
      }
    }

    /** Appends `p` where there is room, and notes the new length. */
    method Fill(p: seq<Byte>)
      requires Placed() && len + |p| <= cap && Now().Longer(len + |p|) in Frugals()
      modifies this`len, this`peak, arena.buf
      ensures Valid() && Contents() == View(old(Contents()).data + p, rOff)
      ensures SameOutside(old(Mem()), Mem(), arena.buf.Length, Now())
    {
      Append(p);
      peak := if peak < len then len else peak;
    }

    /** Writes `p` after the bytes in use, where the slice has room for it. */
    method Append(p: seq<Byte>)
      requires Placed() && len + |p| <= cap
      modifies this`len, arena.buf
      ensures Placed() && len == old(len) + |p|
      ensures Contents() == View(old(Contents()).data + p, rOff)
      ensures SameOutside(old(Mem()), Mem(), arena.buf.Length, Now())
    {
      ghost var before := Contents().data;
      forall i | 0 <= i < |p| { arena.buf[start + len + i] := p[i]; }
      len := len + |p|;
      assert Contents().data == before + p;
    }

    method Read(room: nat) returns (r: Outcome)
      requires Valid()
      modifies this`rOff
      ensures Valid() && Explains(old(Contents()), Op.Read(0, room), r)
      ensures Contents() == Next(old(Contents()), Op.Read(0, room), r)
    {
      if rOff >= len {
        return Eof;
      }
      var n := Min(room, len - rOff);
      r := Got(arena.buf[start + rOff..start + rOff + n]);
      ReadOn(Mem(), Now(), n, r.bytes);
      rOff := rOff + n;
    }

    method Reset()
      requires Valid()
      modifies this`len, this`rOff
      ensures Valid() && Contents() == View([], 0)
    {
      len, rOff := 0, 0;
    }
  }

  // ---- Many buffers over one arena -----------------------------------------------------------------

  ghost predicate SlicesApart(a: Fields, b: Fields) {
    a.cap == 0 || b.cap == 0 || a.start + a.cap <= b.start || b.start + b.cap <= a.start
  }

  ghost predicate Separated(all: seq<Fields>) {
    forall i, j :: 0 <= i < j < |all| ==> SlicesApart(all[i], all[j])
  }

  /** A buffer with fields `x` shows `v`, over an arena that holds `mem` and has handed out `off` bytes. */
  ghost predicate Holds(mem: seq<Byte>, off: nat, x: Fields, v: View) {
    x.Placed(off, |mem|) && x in Frugals() && v == Shows(mem, x)
  }

  ghost predicate AllHold(mem: seq<Byte>, off: nat, all: seq<Fields>, views: seq<View>) {
    |all| == |views| && Separated(all) && forall i :: 0 <= i < |all| ==> Holds(mem, off, all[i], views[i])
  }

  lemma {:induction false} SliceKeeps(before: seq<Byte>, after: seq<Byte>, off: nat, x: Fields, y: Fields)
    requires SameOutside(before, after, off, x) && SlicesApart(y, x) && y.Placed(off, |before|)
    ensures after[y.start..y.start + y.len] == before[y.start..y.start + y.len]
  {
  }

  /** A buffer that changes only its own slice, or moves beyond all slices, disturbs no other buffer. */
  lemma {:induction false} OthersKeep(before: seq<Byte>, off: nat, after: seq<Byte>, off1: nat, all: seq<Fields>,
      views: seq<View>, k: nat, x: Fields, v: View)
    requires AllHold(before, off, all, views) && k < |all|
    requires SameOutside(before, after, off, all[k]) && off <= off1
    requires (x.start == all[k].start && x.cap == all[k].cap) || off <= x.start
    requires Holds(after, off1, x, v)
    ensures AllHold(after, off1, all[k := x], views[k := v])
  {
    forall i | 0 <= i < |all| && i != k ensures Holds(after, off1, all[i], views[i]) && SlicesApart(all[i], x)
        && SlicesApart(x, all[i]) {
      assert Holds(before, off, all[i], views[i]);
      assert if i < k then SlicesApart(all[i], all[k]) else SlicesApart(all[k], all[i]);
      SliceKeeps(before, after, off, all[k], all[i]);
    }
  }

  /** Distinct buffers over one arena, whose slices share no byte and hold `views`. */
  ghost predicate Grouped(arena: Arena, bs: seq<Buffer>, all: seq<Fields>, views: seq<View>)
    reads arena, arena.buf, bs
  {
    && |all| == |bs|
    && (forall i :: 0 <= i < |bs| ==> bs[i].arena == arena && bs[i].Now() == all[i])
    && (forall i, j :: 0 <= i < j < |bs| ==> bs[i] != bs[j])
    && AllHold(arena.buf[..], arena.off, all, views)
  }

  /** The room that a call can take from the arena. */
  function Demand(op: Op, len: nat): nat {
    if op.Write? then 2 * (len + |op.p|) + FIRST_CAP else 0
  }

  method CallWrite(arena: Arena, b: Buffer, p: seq<Byte>, ghost v: View) returns (ok: bool)
    requires b.arena == arena && Holds(arena.buf[..], arena.off, b.Now(), v)
    requires arena.off + 2 * (|v.data| + |p|) + FIRST_CAP <= MAX_INT
    modifies b, arena`off, arena.buf
    ensures p == [] ==> ok
    ensures Holds(arena.buf[..], arena.off, b.Now(), if ok then v.(data := v.data + p) else v)
    ensures SameOutside(old(arena.buf[..]), arena.buf[..], old(arena.off), old(b.Now()))
    ensures (b.start == old(b.start) && b.cap == old(b.cap)) || old(arena.off) <= b.start
    ensures old(arena.off) <= arena.off <= old(arena.off) + 2 * (|v.data| + |p|) + FIRST_CAP
  {
    assert b.Contents() == v;
    ok := b.Write(p);
    assert b.Contents() == if ok then v.(data := v.data + p) else v;
  }

  /** One call on a buffer, as the other buffers see it. */
  method CallOne(arena: Arena, b: Buffer, op: Op, ghost v: View) returns (o: Outcome)
    requires b.arena == arena && Holds(arena.buf[..], arena.off, b.Now(), v)
    requires arena.off + Demand(op, |v.data|) <= MAX_INT
    modifies b, arena`off, arena.buf
    ensures Explains(v, op, o) && Holds(arena.buf[..], arena.off, b.Now(), Next(v, op, o))
    ensures SameOutside(old(arena.buf[..]), arena.buf[..], old(arena.off), old(b.Now()))
    ensures (b.start == old(b.start) && b.cap == old(b.cap)) || old(arena.off) <= b.start
    ensures old(arena.off) <= arena.off <= old(arena.off) + Demand(op, |v.data|)
  {
    assert b.Contents() == v;
    match op {
      case Write(_, p) =>
        var ok := CallWrite(arena, b, p, v);
        o := Wrote(ok);
        return;
      case Read(_, room) =>
        o := b.Read(room);
      case Reset(_) =>
        b.Reset();
        o := Cleared;
    }
    assert b.Contents() == Next(v, op, o);
  }

  /** One call on one buffer changes that buffer as its own history says, and no other. */
  method Call(arena: Arena, bs: seq<Buffer>, op: Op, ghost all: seq<Fields>, ghost views: seq<View>)
      returns (o: Outcome, ghost x: Fields)
    requires Grouped(arena, bs, all, views) && op.buffer < |bs|
    requires arena.off + Demand(op, |views[op.buffer].data|) <= MAX_INT
    modifies bs, arena`off, arena.buf
    ensures Explains(views[op.buffer], op, o)
    ensures Grouped(arena, bs, all[op.buffer := x], views[op.buffer := Next(views[op.buffer], op, o)])
    ensures arena.off <= old(arena.off) + Demand(op, |views[op.buffer].data|)
  {
    var b := bs[op.buffer];
    ghost var k, before, off := op.buffer, arena.buf[..], arena.off;
    o := CallOne(arena, b, op, views[k]);
    x := b.Now();
    OthersKeep(before, off, arena.buf[..], arena.off, all, views, k, x, Next(views[k], op, o));
  }

  /** How long a buffer can get when none is longer than `len` before the script. */
  function Longest(script: seq<Op>, len: nat): nat
    decreases |script|
  {
    if script == [] then len
    else
      var n := |script| - 1;
      Longest(script[..n], len) + if script[n].Write? then |script[n].p| else 0
  }

  /** The room that a script can take from the arena when no buffer is longer than `len` before it. */
  function Demands(script: seq<Op>, len: nat): nat
    decreases |script|
  {
    if script == [] then 0
    else
      var n := |script| - 1;
      Demands(script[..n], len) + Demand(script[n], Longest(script[..n], len))
  }

  /** The views are what the first calls of the script made of the buffers. */
  ghost predicate Replayed(start: seq<View>, script: seq<Op>, outcomes: seq<Outcome>, views: seq<View>) {
    && |outcomes| == |script| && |views| == |start|
    && Explained(start, script, outcomes)
    && forall i :: 0 <= i < |start| ==> views[i] == ViewOf(start[i], i, script, outcomes)
  }

  lemma {:induction false} HistoryStep(start: seq<View>, script: seq<Op>, outcomes: seq<Outcome>, views: seq<View>,
      o: Outcome)
    requires script != []
    requires var n := |script| - 1; var op := script[n];
             && Replayed(start, script[..n], outcomes, views)
             && op.buffer < |start| && Explains(views[op.buffer], op, o)
    ensures var op := script[|script| - 1];
            Replayed(start, script, outcomes + [o], views[op.buffer := Next(views[op.buffer], op, o)])
  {
    assert (outcomes + [o])[..|script| - 1] == outcomes;
  }

  ghost predicate NoLonger(views: seq<View>, len: nat) {
    forall i :: 0 <= i < |views| ==> |views[i].data| <= len
  }

  lemma {:induction false} LongestStep(views: seq<View>, len: nat, op: Op, o: Outcome)
    requires NoLonger(views, len) && op.buffer < |views|
    ensures Demand(op, |views[op.buffer].data|) <= Demand(op, len)
    ensures NoLonger(views[op.buffer := Next(views[op.buffer], op, o)], len + if op.Write? then |op.p| else 0)
  {
  }

  /** Calls on any number of buffers, interleaved in any way, over one arena: each buffer ends up with what
      its own calls made of it, and every outcome is one that its own history explains. */
  method Perform(arena: Arena, bs: seq<Buffer>, script: seq<Op>, ghost len: nat, ghost fields: seq<Fields>,
      ghost start: seq<View>)
      returns (outcomes: seq<Outcome>, ghost all: seq<Fields>, ghost views: seq<View>)
    requires Grouped(arena, bs, fields, start) && NoLonger(start, len)
    requires forall i :: 0 <= i < |script| ==> script[i].buffer < |bs|
    requires arena.off + Demands(script, len) <= MAX_INT
    modifies bs, arena`off, arena.buf
    ensures Grouped(arena, bs, all, views) && Replayed(start, script, outcomes, views)
    ensures NoLonger(views, Longest(script, len)) && arena.off <= old(arena.off) + Demands(script, len)
    decreases |script|
  {
    if script == [] {
      outcomes, all, views := [], fields, start;
      return;
    }
    var n := |script| - 1;
    var op := script[n];
    ghost var all0, views0;
    outcomes, all0, views0 := Perform(arena, bs, script[..n], len, fields, start);
    ghost var x;
    var o;
    LongestStep(views0, Longest(script[..n], len), op, Cleared);
    o, x := Call(arena, bs, op, all0, views0);
    LongestStep(views0, Longest(script[..n], len), op, o);
    HistoryStep(start, script, outcomes, views0, o);
    outcomes := outcomes + [o];
    all, views := all0[op.buffer := x], views0[op.buffer := Next(views0[op.buffer], op, o)];
  }
}
