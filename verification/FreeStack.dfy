/** The Treiber-style stack of free extents.  Records live at raw addresses, linked through `next`. */
module FreeStack {
  import opened Words

  datatype Slot = Slot(addr: nat, size: nat, next: Ptr)

  type Slots = map<Ptr, Slot>

  /** The links from `head` visit exactly the records of `chain`, in order, and then end. */
  ghost predicate Chain(slots: Slots, head: Ptr, chain: seq<Ptr>)
    decreases chain
  {
    if chain == [] then head == NIL
    else
      && head == chain[0]
      && head != NIL
      && head in slots
      && Chain(slots, slots[head].next, chain[1..])
  }

  ghost predicate Distinct<T>(s: seq<T>) {
    forall i, j :: 0 <= i < j < |s| ==> s[i] != s[j]
  }

  lemma {:induction false} ChainFrame(a: Slots, b: Slots, head: Ptr, chain: seq<Ptr>)
    requires Chain(a, head, chain)
    requires forall p :: p in chain && p in a ==> p in b && b[p].next == a[p].next
    ensures Chain(b, head, chain)
    decreases chain
  {
    if chain != [] {
      assert chain[0] in chain;
      assert forall p :: p in chain[1..] ==> p in chain;
      ChainFrame(a, b, a[head].next, chain[1..]);
    }
  }

  lemma {:induction false} ChainIn(slots: Slots, head: Ptr, chain: seq<Ptr>)
    requires Chain(slots, head, chain)
    ensures forall p :: p in chain ==> p in slots && p != NIL
    decreases chain
  {
    if chain != [] {
      ChainIn(slots, slots[head].next, chain[1..]);
      assert chain == [chain[0]] + chain[1..];
    }
  }

  /** The links determine the stack: there is one chain from each head. */
  lemma {:induction false} ChainUnique(slots: Slots, head: Ptr, a: seq<Ptr>, b: seq<Ptr>)
    requires Chain(slots, head, a) && Chain(slots, head, b)
    ensures a == b
    decreases a
  {
    if a != [] && b != [] {
      ChainUnique(slots, slots[head].next, a[1..], b[1..]);
      assert a == [a[0]] + a[1..] && b == [b[0]] + b[1..];
    }
  }
}
