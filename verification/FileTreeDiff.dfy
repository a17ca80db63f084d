/** What the merge of two trees means: the verdict, and the exact difference. */
module FileTreeDiff {
  import opened Names
  import opened FileTree

  predicate AllHashed(tree: seq<Node>) {
    tree == [] ||
    ((match tree[0] case File(_, h) => h.Some? case Dir(_, children) => AllHashed(children)) && AllHashed(tree[1..]))
  }

  lemma {:induction false} DiffNodeEmpty(a: Node, b: Node)
    requires a.title == b.title
    ensures DiffNode(a, b) == ([], []) <==> a == b && AllHashed([a])
    decreases a, 1
  {
    if a.Dir? && b.Dir? {
      DiffEmpty(a.children, b.children);
    }
  }

  /** Nothing is left on either side exactly if the trees are equal and no hash is missing. */
  lemma {:induction false} DiffEmpty(left: seq<Node>, right: seq<Node>)
    ensures Diff(left, right) == ([], []) <==> left == right && AllHashed(left)
    decreases left, 0, |right|
  {
    if left != [] && right != [] {
      var a, b := left[0], right[0];
      LessIrreflexive(a.title);
      LessTotal(a.title, b.title);
      if !Less(a.title, b.title) && !Less(b.title, a.title) {
        DiffNodeEmpty(a, b);
        DiffEmpty(left[1..], right[1..]);
        assert left == [a] + left[1..] && right == [b] + right[1..];
      }
    }
  }

  // ---------------------------------------------------------------- leaves

  lemma LeafAppend(a: seq<Node>, b: seq<Node>, p: Path, h: Hash)
    ensures Leaf(a + b, p, h) <==> Leaf(a, p, h) || Leaf(b, p, h)
  {
    if p != [] {
      if Leaf(a, p, h) {
        var i :| 0 <= i < |a| && NodeLeaf(a[i], p, h);
        assert (a + b)[i] == a[i];
      }
      if Leaf(b, p, h) {
        var i :| 0 <= i < |b| && NodeLeaf(b[i], p, h);
        assert (a + b)[|a| + i] == b[i];
      }
    }
  }

  lemma LeafHead(tree: seq<Node>, p: Path, h: Hash)
    requires tree != []
    ensures Leaf(tree, p, h) <==> Leaf([tree[0]], p, h) || Leaf(tree[1..], p, h)
  {
    LeafAppend([tree[0]], tree[1..], p, h);
    assert tree == [tree[0]] + tree[1..];
  }

  lemma LeafOne(node: Node, p: Path, h: Hash)
    ensures Leaf([node], p, h) <==> p != [] && NodeLeaf(node, p, h)
  {
    if p != [] && NodeLeaf(node, p, h) {
      assert NodeLeaf([node][0], p, h);
    }
  }

  /** Titles ascend strictly at every level. */
  predicate Ascending(tree: seq<Node>) {
    tree == [] ||
    (&& (forall k :: 0 < k < |tree| ==> Less(tree[0].title, tree[k].title))
     && (tree[0].Dir? ==> Ascending(tree[0].children))
     && Ascending(tree[1..]))
  }

  predicate AllAbove(tree: seq<Node>, title: string) {
    forall k :: 0 <= k < |tree| ==> Less(title, tree[k].title)
  }

  lemma AboveHasNone(tree: seq<Node>, p: Path, h: Hash)
    requires p != [] && AllAbove(tree, p[0])
    ensures !Leaf(tree, p, h)
  {
    LessIrreflexive(p[0]);
  }

  /** In a tree whose first title is above `title`, all are. */
  lemma AscendingAbove(tree: seq<Node>, title: string)
    requires Ascending(tree) && (tree != [] ==> Less(title, tree[0].title))
    ensures AllAbove(tree, title)
  {
    forall k | 0 < k < |tree|
      ensures Less(title, tree[k].title)
    {
      LessTransitive(title, tree[0].title, tree[k].title);
    }
  }

  // ---------------------------------------------------------------- the exact difference

  /** A file the other side does not have with the same hash, or that has no hash. */
  predicate Differs(mine: seq<Node>, other: seq<Node>, p: Path, h: Hash) {
    Leaf(mine, p, h) && !(h.Some? && Leaf(other, p, h))
  }

  lemma {:induction false} DiffNodeExact(a: Node, b: Node, p: Path, h: Hash)
    requires a.title == b.title && (a.Dir? ==> Ascending(a.children)) && (b.Dir? ==> Ascending(b.children))
    ensures Leaf(DiffNode(a, b).0, p, h) <==> Differs([a], [b], p, h)
    ensures Leaf(DiffNode(a, b).1, p, h) <==> Differs([b], [a], p, h)
    decreases a, 1
  {
    LeafOne(a, p, h);
    LeafOne(b, p, h);
    if a.Dir? && b.Dir? {
      var (x, y) := Diff(a.children, b.children);
      LeafOne(Dir(a.title, x), p, h);
      LeafOne(Dir(b.title, y), p, h);
      if |p| > 1 {
        DiffExact(a.children, b.children, p[1..], h);
      }
    }
  }

  /**
   When sibling titles ascend on both sides, each result holds exactly the files of its
   side that are missing on the other, differ, or lack a hash.
   */
  lemma {:induction false} DiffExact(left: seq<Node>, right: seq<Node>, p: Path, h: Hash)
    requires Ascending(left) && Ascending(right)
    ensures Leaf(Diff(left, right).0, p, h) <==> Differs(left, right, p, h)
    ensures Leaf(Diff(left, right).1, p, h) <==> Differs(right, left, p, h)
    decreases left, 0, |right|
  {
    if left == [] || right == [] || p == [] {
      return;
    }
    var a, b := left[0], right[0];
    LeafHead(left, p, h);
    LeafHead(right, p, h);
    LeafOne(a, p, h);
    LeafOne(b, p, h);
    if Less(a.title, b.title) {
      DiffExact(left[1..], right, p, h);
      LeafAppend([a], Diff(left[1..], right).0, p, h);
      if p[0] == a.title {
        AscendingAbove(right, a.title);
        AboveHasNone(right, p, h);
      }
    } else if Less(b.title, a.title) {
      DiffExact(left, right[1..], p, h);
      LeafAppend([b], Diff(left, right[1..]).1, p, h);
      if p[0] == b.title {
        AscendingAbove(left, b.title);
        AboveHasNone(left, p, h);
      }
    } else {
      LessTotal(a.title, b.title);
      DiffNodeExact(a, b, p, h);
      DiffExact(left[1..], right[1..], p, h);
      LeafAppend(DiffNode(a, b).0, Diff(left[1..], right[1..]).0, p, h);
      LeafAppend(DiffNode(a, b).1, Diff(left[1..], right[1..]).1, p, h);
      if p[0] == a.title {
        AboveHasNone(left[1..], p, h);
        AboveHasNone(right[1..], p, h);
      }
    }
  }

  // ---------------------------------------------------------------- what is never dropped

  lemma {:induction false} DiffNodeKeeps(a: Node, b: Node, p: Path, h: Hash)
    requires a.title == b.title
    ensures Differs([a], [b], p, h) ==> Leaf(DiffNode(a, b).0, p, h)
    ensures Differs([b], [a], p, h) ==> Leaf(DiffNode(a, b).1, p, h)
    ensures Leaf(DiffNode(a, b).0, p, h) ==> Leaf([a], p, h)
    ensures Leaf(DiffNode(a, b).1, p, h) ==> Leaf([b], p, h)
    decreases a, 1
  {
    LeafOne(a, p, h);
    LeafOne(b, p, h);
    if a.Dir? && b.Dir? {
      var (x, y) := Diff(a.children, b.children);
      LeafOne(Dir(a.title, x), p, h);
      LeafOne(Dir(b.title, y), p, h);
      if |p| > 1 {
        DiffKeeps(a.children, b.children, p[1..], h);
      }
    }
  }

  /** For any two trees: nothing that differs is dropped, and nothing is invented. */
  lemma {:induction false} DiffKeeps(left: seq<Node>, right: seq<Node>, p: Path, h: Hash)
    ensures Differs(left, right, p, h) ==> Leaf(Diff(left, right).0, p, h)
    ensures Differs(right, left, p, h) ==> Leaf(Diff(left, right).1, p, h)
    ensures Leaf(Diff(left, right).0, p, h) ==> Leaf(left, p, h)
    ensures Leaf(Diff(left, right).1, p, h) ==> Leaf(right, p, h)
    decreases left, 0, |right|
  {
    if left == [] || right == [] {
      return;
    }
    var a, b := left[0], right[0];
    LeafHead(left, p, h);
    LeafHead(right, p, h);
    if Less(a.title, b.title) {
      DiffKeeps(left[1..], right, p, h);
      LeafAppend([a], Diff(left[1..], right).0, p, h);
    } else if Less(b.title, a.title) {
      DiffKeeps(left, right[1..], p, h);
      LeafAppend([b], Diff(left, right[1..]).1, p, h);
    } else {
      LessTotal(a.title, b.title);
      DiffNodeKeeps(a, b, p, h);
      DiffKeeps(left[1..], right[1..], p, h);
      LeafAppend(DiffNode(a, b).0, Diff(left[1..], right[1..]).0, p, h);
      LeafAppend(DiffNode(a, b).1, Diff(left[1..], right[1..]).1, p, h);
    }
  }
}
