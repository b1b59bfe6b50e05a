/** The insert-only binary search tree from block address to owner mask.

    Records live at raw addresses, so a tree is a map from pointers to records together with a root
    pointer.  A `Shape` is the inductive tree that the links spell out; it is used in specifications
    only, and `Rep` says that the links spell out a given shape and that the shape is a search tree.
 */
module SearchTree {
  import opened Words

  datatype Node = Node(addr: nat, size: nat, mask: Mask, left: Ptr, right: Ptr)

  type Nodes = map<Ptr, Node>

  datatype Shape = Leaf | Branch(left: Shape, ptr: Ptr, right: Shape)

  ghost function Ptrs(t: Shape): set<Ptr> {
    match t
    case Leaf => {}
    case Branch(l, p, r) => Ptrs(l) + {p} + Ptrs(r)
  }

  /** The links from `p` spell out `t`, and the addresses in it are ordered and lie in (lo, hi). */
  ghost predicate Rep(nodes: Nodes, p: Ptr, t: Shape, lo: int, hi: int)
    decreases t
  {
    match t
    case Leaf => p == NIL
    case Branch(l, q, r) =>
      && p == q
      && p != NIL
      && p in nodes
      && lo < nodes[p].addr < hi
      && Rep(nodes, nodes[p].left, l, lo, nodes[p].addr)
      && Rep(nodes, nodes[p].right, r, nodes[p].addr, hi)
  }

  /** Some record of `t` holds address `k`. */
  ghost predicate HasKey(nodes: Nodes, t: Shape, k: nat) {
    exists p :: p in Ptrs(t) && p in nodes && nodes[p].addr == k
  }

  /** The link that a search for `k` follows out of a record that does not hold `k`. */
  function Child(n: Node, k: nat): Ptr {
    if k < n.addr then n.left else n.right
  }

  function WithChild(n: Node, k: nat, p: Ptr): Node {
    if k < n.addr then n.(left := p) else n.(right := p)
  }

  function SetChild(nodes: Nodes, c: Ptr, k: nat, p: Ptr): Nodes
    requires c in nodes
  {
    nodes[c := WithChild(nodes[c], k, p)]
  }

  /** The search for `k` from the top of `t` passes through record `c`. */
  ghost predicate OnPath(nodes: Nodes, t: Shape, k: nat, c: Ptr) {
    && t.Branch?
    && t.ptr in nodes
    && (t.ptr == c
        || (k < nodes[t.ptr].addr && OnPath(nodes, t.left, k, c))
        || (k > nodes[t.ptr].addr && OnPath(nodes, t.right, k, c)))
  }

  /** `t` with record `n` hung where a search for `k` falls off it. */
  ghost function Grow(nodes: Nodes, t: Shape, k: nat, n: Ptr): Shape {
    match t
    case Leaf => Branch(Leaf, n, Leaf)
    case Branch(l, p, r) =>
      if p !in nodes then t
      else if k < nodes[p].addr then Branch(Grow(nodes, l, k, n), p, r)
      else Branch(l, p, Grow(nodes, r, k, n))
  }

  /** Two record maps agree on addresses and links; masks and sizes may differ. */
  ghost predicate SameLinks(a: Nodes, b: Nodes, ps: set<Ptr>) {
    forall p :: p in ps ==>
      p in a && p in b && a[p].addr == b[p].addr && a[p].left == b[p].left && a[p].right == b[p].right
  }

  lemma {:induction false} RepBounds(nodes: Nodes, p: Ptr, t: Shape, lo: int, hi: int)
    requires Rep(nodes, p, t, lo, hi)
    ensures forall q :: q in Ptrs(t) ==> q != NIL && q in nodes && lo < nodes[q].addr < hi
    decreases t
  {
    if t.Branch? {
      RepBounds(nodes, nodes[p].left, t.left, lo, nodes[p].addr);
      RepBounds(nodes, nodes[p].right, t.right, nodes[p].addr, hi);
    }
  }

  lemma {:induction false} RepFrame(a: Nodes, b: Nodes, p: Ptr, t: Shape, lo: int, hi: int)
    requires Rep(a, p, t, lo, hi)
    requires SameLinks(a, b, Ptrs(t))
    ensures Rep(b, p, t, lo, hi)
    decreases t
  {
    if t.Branch? {
      assert p in Ptrs(t);
      RepFrame(a, b, a[p].left, t.left, lo, a[p].addr);
      RepFrame(a, b, a[p].right, t.right, a[p].addr, hi);
    }
  }

  lemma {:induction false} OnPathIn(nodes: Nodes, t: Shape, k: nat, c: Ptr)
    requires OnPath(nodes, t, k, c)
    ensures c in Ptrs(t) && c in nodes
  {
    if t.ptr != c {
      OnPathIn(nodes, if k < nodes[t.ptr].addr then t.left else t.right, k, c);
    }
  }

  lemma {:induction false} OnPathFrame(a: Nodes, b: Nodes, t: Shape, k: nat, c: Ptr)
    requires OnPath(a, t, k, c)
    requires forall p :: p in Ptrs(t) ==> p in b && (p in a ==> a[p].addr == b[p].addr)
    ensures OnPath(b, t, k, c)
  {
    assert t.ptr in Ptrs(t);
    if t.ptr != c {
      OnPathFrame(a, b, if k < a[t.ptr].addr then t.left else t.right, k, c);
    }
  }

  /** Search trees hold each address at most once. */
  lemma {:induction false} UniqueKey(nodes: Nodes, p: Ptr, t: Shape, lo: int, hi: int, a: Ptr, b: Ptr)
    requires Rep(nodes, p, t, lo, hi)
    requires a in Ptrs(t) && b in Ptrs(t)
    requires a in nodes && b in nodes && nodes[a].addr == nodes[b].addr
    ensures a == b
    decreases t
  {
    RepBounds(nodes, nodes[p].left, t.left, lo, nodes[p].addr);
    RepBounds(nodes, nodes[p].right, t.right, nodes[p].addr, hi);
    if a in Ptrs(t.left) && b in Ptrs(t.left) {
      UniqueKey(nodes, nodes[p].left, t.left, lo, nodes[p].addr, a, b);
    } else if a in Ptrs(t.right) && b in Ptrs(t.right) {
      UniqueKey(nodes, nodes[p].right, t.right, nodes[p].addr, hi, a, b);
    }
  }

  /** A search moves from a record on its path to the next record on its path. */
  lemma {:induction false} OnPathStep(nodes: Nodes, p: Ptr, t: Shape, lo: int, hi: int, k: nat, c: Ptr)
    requires Rep(nodes, p, t, lo, hi)
    requires OnPath(nodes, t, k, c)
    requires c in nodes && nodes[c].addr != k && Child(nodes[c], k) != NIL
    ensures OnPath(nodes, t, k, Child(nodes[c], k))
    decreases t
  {
    if t.ptr != c {
      if k < nodes[p].addr {
        OnPathStep(nodes, nodes[p].left, t.left, lo, nodes[p].addr, k, c);
      } else {
        OnPathStep(nodes, nodes[p].right, t.right, nodes[p].addr, hi, k, c);
      }
    }
  }

  /** A search for a present address never meets a nil link before it meets the address. */
  lemma {:induction false} PresentGoesOn(nodes: Nodes, p: Ptr, t: Shape, lo: int, hi: int, k: nat, c: Ptr, q: Ptr)
    requires Rep(nodes, p, t, lo, hi)
    requires OnPath(nodes, t, k, c)
    requires c in nodes && nodes[c].addr != k
    requires q in Ptrs(t) && q in nodes && nodes[q].addr == k
    ensures Child(nodes[c], k) != NIL
    decreases t
  {
    RepBounds(nodes, nodes[p].left, t.left, lo, nodes[p].addr);
    RepBounds(nodes, nodes[p].right, t.right, nodes[p].addr, hi);
    if t.ptr != c {
      if k < nodes[p].addr {
        PresentGoesOn(nodes, nodes[p].left, t.left, lo, nodes[p].addr, k, c, q);
      } else {
        PresentGoesOn(nodes, nodes[p].right, t.right, nodes[p].addr, hi, k, c, q);
      }
    }
  }

  lemma {:induction false} GrowPtrs(nodes: Nodes, p: Ptr, t: Shape, lo: int, hi: int, k: nat, n: Ptr)
    requires Rep(nodes, p, t, lo, hi)
    ensures Ptrs(Grow(nodes, t, k, n)) == Ptrs(t) + {n}
    decreases t
  {
    if t.Branch? {
      if k < nodes[p].addr {
        GrowPtrs(nodes, nodes[p].left, t.left, lo, nodes[p].addr, k, n);
      } else {
        GrowPtrs(nodes, nodes[p].right, t.right, nodes[p].addr, hi, k, n);
      }
    }
  }

  /** Installing a fresh record in the nil link that a search for its address ends in keeps a search tree. */
  lemma {:induction false} GrowRep(nodes: Nodes, p: Ptr, t: Shape, lo: int, hi: int, k: nat, c: Ptr, n: Ptr)
    requires Rep(nodes, p, t, lo, hi)
    requires lo < k < hi
    requires OnPath(nodes, t, k, c)
    requires c in nodes && nodes[c].addr != k && Child(nodes[c], k) == NIL
    requires n != NIL && n in nodes && n !in Ptrs(t)
    requires nodes[n].addr == k && nodes[n].left == NIL && nodes[n].right == NIL
    ensures Rep(SetChild(nodes, c, k, n), p, Grow(nodes, t, k, n), lo, hi)
    decreases t
  {
    var after := SetChild(nodes, c, k, n);
    var here := nodes[p].addr;
    OnPathIn(nodes, t, k, c);
    RepBounds(nodes, nodes[p].left, t.left, lo, here);
    RepBounds(nodes, nodes[p].right, t.right, here, hi);
    if t.ptr == c {
      if k < here {
        assert t.left == Leaf;
        RepFrame(nodes, after, nodes[p].right, t.right, here, hi);
      } else {
        assert t.right == Leaf;
        RepFrame(nodes, after, nodes[p].left, t.left, lo, here);
      }
    } else if k < here {
      OnPathIn(nodes, t.left, k, c);
      GrowRep(nodes, nodes[p].left, t.left, lo, here, k, c, n);
      RepFrame(nodes, after, nodes[p].right, t.right, here, hi);
    } else {
      OnPathIn(nodes, t.right, k, c);
      GrowRep(nodes, nodes[p].right, t.right, here, hi, k, c, n);
      RepFrame(nodes, after, nodes[p].left, t.left, lo, here);
    }
  }

  /** Growth disturbs no other search: every record on a path stays on it. */
  lemma {:induction false} GrowKeepsPaths(nodes: Nodes, t: Shape, k: nat, n: Ptr, after: Nodes, j: nat, c: Ptr)
    requires OnPath(nodes, t, j, c)
    requires forall p :: p in Ptrs(t) ==> p in nodes && p in after && after[p].addr == nodes[p].addr
    ensures OnPath(after, Grow(nodes, t, k, n), j, c)
  {
    assert t.ptr in Ptrs(t);
    if t.ptr != c {
      if j < nodes[t.ptr].addr {
        if k < nodes[t.ptr].addr {
          GrowKeepsPaths(nodes, t.left, k, n, after, j, c);
        } else {
          OnPathFrame(nodes, after, t.left, j, c);
        }
      } else {
        if k < nodes[t.ptr].addr {
          OnPathFrame(nodes, after, t.right, j, c);
        } else {
          GrowKeepsPaths(nodes, t.right, k, n, after, j, c);
        }
      }
    }
  }

  /** A record on the search path of `k` heads a search tree over an address interval that contains `k`. */
  lemma {:induction false} OnPathInterval(nodes: Nodes, p: Ptr, t: Shape, lo: int, hi: int, k: nat, c: Ptr)
      returns (sub: Shape, a: int, b: int)
    requires Rep(nodes, p, t, lo, hi) && lo < k < hi
    requires OnPath(nodes, t, k, c)
    ensures Rep(nodes, c, sub, a, b) && a < k < b
    decreases t
  {
    if t.ptr == c {
      sub, a, b := t, lo, hi;
    } else if k < nodes[p].addr {
      sub, a, b := OnPathInterval(nodes, nodes[p].left, t.left, lo, nodes[p].addr, k, c);
    } else {
      sub, a, b := OnPathInterval(nodes, nodes[p].right, t.right, nodes[p].addr, hi, k, c);
    }
  }

  /** `b` has all the records of `a`, with the same addresses and links. */
  ghost predicate Keeps(a: Nodes, b: Nodes) {
    SameLinks(a, b, a.Keys)
  }

  lemma {:induction false} HasKeyFrame(a: Nodes, b: Nodes, shape: Shape, k: nat)
    requires Keeps(a, b)
    requires HasKey(a, shape, k)
    ensures HasKey(b, shape, k)
  {
    var p :| p in Ptrs(shape) && p in a && a[p].addr == k;
    assert p in b && b[p].addr == k;
  }

  /** Where record `n` for address `k` can be linked below record `c`. */
  ghost predicate CanLink(root: Ptr, nodes: Nodes, shape: Shape, k: nat, c: Ptr, n: Ptr) {
    && Rep(nodes, root, shape, -1, WORD)
    && k < WORD
    && OnPath(nodes, shape, k, c)
    && c in nodes && nodes[c].addr != k && Child(nodes[c], k) == NIL
    && n != NIL && n in nodes && n !in Ptrs(shape)
    && nodes[n].addr == k && nodes[n].left == NIL && nodes[n].right == NIL
  }

  lemma {:induction false} HasKeyGrow(root: Ptr, nodes: Nodes, shape: Shape, k: nat, c: Ptr, n: Ptr, j: nat)
    requires CanLink(root, nodes, shape, k, c, n)
    ensures HasKey(SetChild(nodes, c, k, n), Grow(nodes, shape, k, n), j) <==> HasKey(nodes, shape, j) || j == k
  {
    var after, grown := SetChild(nodes, c, k, n), Grow(nodes, shape, k, n);
    GrowPtrs(nodes, root, shape, -1, WORD, k, n);
    if HasKey(nodes, shape, j) {
      var p :| p in Ptrs(shape) && p in nodes && nodes[p].addr == j;
      assert p in Ptrs(grown) && p in after && after[p].addr == j;
    }
    if j == k { assert n in Ptrs(grown) && n in after && after[n].addr == j; }
    if HasKey(after, grown, j) && j != k {
      var p :| p in Ptrs(grown) && p in after && after[p].addr == j;
      assert p in Ptrs(shape) && p in nodes && nodes[p].addr == j;
    }
  }
}
