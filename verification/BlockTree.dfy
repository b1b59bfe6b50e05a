/** What the links of a tree of blocks mean: a registry entry for each address. */
module BlockTree {
  import opened Words
  import opened SearchTree
  import R = Registry

  /** The linked records are exactly the entries of `blocks`. */
  ghost predicate Describes(nodes: Nodes, t: Shape, blocks: map<nat, R.Entry>) {
    && (forall k :: k in blocks <==> HasKey(nodes, t, k))
    && (forall p :: p in Ptrs(t) && p in nodes ==>
          nodes[p].addr in blocks && blocks[nodes[p].addr] == R.Entry(nodes[p].size, nodes[p].mask))
  }

  datatype TreeView = TreeView(shape: Shape, blocks: map<nat, R.Entry>)

  /** What the links below `root` mean: a search tree, and the blocks it records. */
  ghost function Trees(nodes: Nodes, root: Ptr): iset<TreeView> {
    iset v: TreeView | Rep(nodes, root, v.shape, -1, WORD) && Describes(nodes, v.shape, v.blocks)
  }

  /** `blocks` with the owners of record `n` added to the entry for its address. */
  function Joined(blocks: map<nat, R.Entry>, n: Node): map<nat, R.Entry> {
    blocks[n.addr := R.Entry(n.size, (if n.addr in blocks then blocks[n.addr].mask else {}) + n.mask)]
  }

  lemma {:induction false} DescribesUpdate(nodes: Nodes, root: Ptr, t: Shape, blocks: map<nat, R.Entry>, p: Ptr,
      size: nat, mask: Mask)
    requires TreeView(t, blocks) in Trees(nodes, root) && p in Ptrs(t) && p in nodes
    ensures TreeView(t, blocks[nodes[p].addr := R.Entry(size, mask)])
            in Trees(nodes[p := nodes[p].(size := size, mask := mask)], root)
  {
    var after := nodes[p := nodes[p].(size := size, mask := mask)];
    RepBounds(nodes, root, t, -1, WORD);
    RepFrame(nodes, after, root, t, -1, WORD);
    forall q | q in Ptrs(t) && q != p ensures nodes[q].addr != nodes[p].addr {
      if nodes[q].addr == nodes[p].addr { UniqueKey(nodes, root, t, -1, WORD, q, p); }
    }
    forall k ensures k in blocks[nodes[p].addr := R.Entry(size, mask)] <==> HasKey(after, t, k) {
      if HasKey(nodes, t, k) { HasKeyFrame(nodes, after, t, k); }
      if HasKey(after, t, k) {
        var q :| q in Ptrs(t) && q in after && after[q].addr == k;
        assert q in nodes && nodes[q].addr == k;
      }
    }
  }

  /** The nil link that a search ends in shows that the address is not recorded. */
  lemma {:induction false} AbsentAtNil(nodes: Nodes, root: Ptr, t: Shape, blocks: map<nat, R.Entry>, k: nat, c: Ptr)
    requires TreeView(t, blocks) in Trees(nodes, root) && OnPath(nodes, t, k, c)
    requires c in nodes && nodes[c].addr != k && Child(nodes[c], k) == NIL
    ensures k !in blocks
  {
    if k in blocks {
      var q :| q in Ptrs(t) && q in nodes && nodes[q].addr == k;
      PresentGoesOn(nodes, root, t, -1, WORD, k, c, q);
    }
  }

  lemma {:induction false} DescribesGrow(nodes: Nodes, root: Ptr, t: Shape, blocks: map<nat, R.Entry>, c: Ptr, n: Ptr)
    requires n in nodes && CanLink(root, nodes, t, nodes[n].addr, c, n) && TreeView(t, blocks) in Trees(nodes, root)
    ensures var k := nodes[n].addr;
            && k !in blocks
            && TreeView(Grow(nodes, t, k, n), Joined(blocks, nodes[n])) in Trees(SetChild(nodes, c, k, n), root)
            && Ptrs(Grow(nodes, t, k, n)) == Ptrs(t) + {n}
  {
    var k := nodes[n].addr;
    var after, grown := SetChild(nodes, c, k, n), Grow(nodes, t, k, n);
    GrowRep(nodes, root, t, -1, WORD, k, c, n);
    GrowPtrs(nodes, root, t, -1, WORD, k, n);
    RepBounds(nodes, root, t, -1, WORD);
    OnPathIn(nodes, t, k, c);
    assert {} + nodes[n].mask == nodes[n].mask;
    AbsentAtNil(nodes, root, t, blocks, k, c);
    EntriesGrow(nodes, t, blocks, c, n);
    forall j ensures j in Joined(blocks, nodes[n]) <==> HasKey(after, grown, j) {
      HasKeyGrow(root, nodes, t, k, c, n, j);
    }
    assert Describes(after, grown, Joined(blocks, nodes[n]));
  }

  /** Each old record keeps its entry and the new one gets its own. */
  lemma {:induction false} EntriesGrow(nodes: Nodes, t: Shape, blocks: map<nat, R.Entry>, c: Ptr, n: Ptr)
    requires Describes(nodes, t, blocks) && n in nodes && c in nodes && nodes[n].addr !in blocks
    ensures var after := SetChild(nodes, c, nodes[n].addr, n);
            forall p :: p in Ptrs(t) + {n} && p in after ==>
              after[p].addr in Joined(blocks, nodes[n])
              && Joined(blocks, nodes[n])[after[p].addr] == R.Entry(after[p].size, after[p].mask)
  {
    assert {} + nodes[n].mask == nodes[n].mask;
    var after := SetChild(nodes, c, nodes[n].addr, n);
    forall p | p in Ptrs(t) + {n} && p in after
      ensures after[p].addr in Joined(blocks, nodes[n])
              && Joined(blocks, nodes[n])[after[p].addr] == R.Entry(after[p].size, after[p].mask)
    {
      assert p in nodes && after[p].addr == nodes[p].addr && after[p].size == nodes[p].size
          && after[p].mask == nodes[p].mask;
    }
  }

  lemma {:induction false} DescribesPlant(nodes: Nodes, t: Shape, blocks: map<nat, R.Entry>, n: Ptr)
    requires TreeView(t, blocks) in Trees(nodes, NIL)
    requires n != NIL && n in nodes && nodes[n].addr < WORD && nodes[n].left == NIL && nodes[n].right == NIL
    ensures t == Leaf
    ensures TreeView(Branch(Leaf, n, Leaf), Joined(blocks, nodes[n])) in Trees(nodes, n)
  {
    assert forall k :: !HasKey(nodes, t, k);
    assert forall k :: k !in blocks;
    assert {} + nodes[n].mask == nodes[n].mask;
    assert Joined(blocks, nodes[n]) == map[nodes[n].addr := R.Entry(nodes[n].size, nodes[n].mask)];
    assert Ptrs(Branch(Leaf, n, Leaf)) == {n};
    assert HasKey(nodes, Branch(Leaf, n, Leaf), nodes[n].addr);
    assert Rep(nodes, NIL, t, -1, nodes[n].addr) && Rep(nodes, NIL, t, nodes[n].addr, WORD);
    assert Rep(nodes, n, Branch(t, n, t), -1, WORD);
    assert Describes(nodes, Branch(Leaf, n, Leaf), Joined(blocks, nodes[n]));
  }

  /** A record outside the tree does not show. */
  lemma {:induction false} DescribesFrame(a: Nodes, b: Nodes, root: Ptr, t: Shape, blocks: map<nat, R.Entry>)
    requires TreeView(t, blocks) in Trees(a, root)
    requires forall p :: p in Ptrs(t) && p in a ==> p in b && a[p] == b[p]
    ensures TreeView(t, blocks) in Trees(b, root)
  {
    RepBounds(a, root, t, -1, WORD);
    RepFrame(a, b, root, t, -1, WORD);
    forall k ensures HasKey(a, t, k) <==> HasKey(b, t, k) {
      if HasKey(a, t, k) {
        var p :| p in Ptrs(t) && p in a && a[p].addr == k;
        assert p in b && b[p].addr == k;
      }
      if HasKey(b, t, k) {
        var p :| p in Ptrs(t) && p in b && b[p].addr == k;
        assert p in a && a[p].addr == k;
      }
    }
  }

  lemma {:induction false} EntryOf(nodes: Nodes, root: Ptr, t: Shape, blocks: map<nat, R.Entry>, p: Ptr)
    requires TreeView(t, blocks) in Trees(nodes, root) && p in Ptrs(t) && p in nodes
    ensures nodes[p].addr in blocks && blocks[nodes[p].addr] == R.Entry(nodes[p].size, nodes[p].mask)
  {
  }

  /** An address that is not at the top of a search tree is on the side it compares to. */
  lemma {:induction false} KeyBelow(nodes: Nodes, p: Ptr, t: Shape, lo: int, hi: int, k: nat)
    requires Rep(nodes, p, t, lo, hi) && p != NIL && k != nodes[p].addr
    ensures HasKey(nodes, t, k) ==> HasKey(nodes, if k < nodes[p].addr then t.left else t.right, k)
  {
    if HasKey(nodes, t, k) {
      var q :| q in Ptrs(t) && q in nodes && nodes[q].addr == k;
      RepBounds(nodes, nodes[p].left, t.left, lo, nodes[p].addr);
      RepBounds(nodes, nodes[p].right, t.right, nodes[p].addr, hi);
      assert q in Ptrs(if k < nodes[p].addr then t.left else t.right);
    }
  }
}
