/**
 The order of a generated tree: flattening it lists the files as sorted, and when its titles
 ascend at every level, which the merge of two trees relies on.
 */
module FileTreeOrder {
  import opened Options
  import opened Names
  import opened FileTree
  import opened FileTreeDiff
  import opened FileTreeBuild

  datatype Entry = Entry(path: Path, hash: Hash)

  function Under(title: string, entries: seq<Entry>): (r: seq<Entry>)
    ensures |r| == |entries|
    ensures forall i :: 0 <= i < |r| ==> r[i] == Entry([title] + entries[i].path, entries[i].hash)
  {
    seq(|entries|, i requires 0 <= i < |entries| => Entry([title] + entries[i].path, entries[i].hash))
  }

  function FlatNode(node: Node): seq<Entry> {
    match node
    case File(title, hash) => [Entry([title], hash)]
    case Dir(title, children) => Under(title, Flat(children))
  }

  /** The files of the tree from left to right. */
  function Flat(tree: seq<Node>): seq<Entry> {
    if tree == [] then [] else FlatNode(tree[0]) + Flat(tree[1..])
  }

  function Entries(items: seq<Item>): (r: seq<Entry>)
    ensures |r| == |items|
    ensures forall i :: 0 <= i < |r| ==> r[i] == Entry(Split(items[i].name), items[i].hash)
  {
    seq(|items|, i requires 0 <= i < |items| => Entry(Split(items[i].name), items[i].hash))
  }

  // ---------------------------------------------------------------- the order of the leaves

  lemma FlatStep(node: Node, rest: seq<Node>)
    ensures Flat([]) == [] && Flat([node] + rest) == FlatNode(node) + Flat(rest)
  {
    assert ([node] + rest)[1..] == rest;
  }

  lemma Associates(a: seq<Entry>, b: seq<Entry>, c: seq<Entry>)
    ensures a + (b + c) == (a + b) + c
  {
  }

  lemma {:induction false} FlatAppend(a: seq<Node>, b: seq<Node>)
    ensures Flat(a + b) == Flat(a) + Flat(b)
  {
    hide Flat, FlatNode;
    if a == [] {
      assert a + b == b;
      FlatStep(File("", None), []);
    } else {
      var node, rest := a[0], a[1..];
      assert a == [node] + rest && a + b == [node] + (rest + b);
      FlatStep(node, rest);
      FlatStep(node, rest + b);
      FlatAppend(rest, b);
      Associates(FlatNode(node), Flat(rest), Flat(b));
    }
  }

  lemma FlatOne(node: Node)
    ensures Flat([node]) == FlatNode(node)
  {
    assert [node][1..] == [];
  }

  lemma {:induction false} ChainFlat(parts: Path, hash: Hash)
    requires parts != []
    ensures FlatNode(Chain(parts, hash)) == [Entry(parts, hash)]
    decreases |parts|
  {
    if |parts| > 1 {
      ChainFlat(parts[1..], hash);
      FlatOne(Chain(parts[1..], hash));
      assert [parts[0]] + parts[1..] == parts;
      assert Flat([Chain(parts[1..], hash)]) == [Entry(parts[1..], hash)];
    } else {
      assert [parts[0]] == parts;
    }
  }

  /** Every branch has an entry, and its entries begin with its title. */
  lemma {:induction false} NodeEntries(node: Node)
    requires Wf([node])
    ensures FlatNode(node) != []
    ensures forall e :: e in FlatNode(node) ==> e.path != [] && e.path[0] == node.title && (node.Dir? ==> |e.path| > 1)
  {
    if node.Dir? {
      assert [node][0] == node;
      NodeEntriesAll(node.children);
    }
  }

  lemma {:induction false} NodeEntriesAll(tree: seq<Node>)
    requires Wf(tree)
    ensures tree != [] ==> Flat(tree) != []
    ensures forall e :: e in Flat(tree) ==> e.path != []
  {
    if tree != [] {
      WfRest(tree);
      NodeEntries(tree[0]);
      NodeEntriesAll(tree[1..]);
    }
  }

  lemma WfRest(tree: seq<Node>)
    requires Wf(tree) && tree != []
    ensures Wf([tree[0]]) && Wf(tree[1..])
  {
  }

  /** The branch a path goes to is the last one, at every level. */
  predicate AtEnd(tree: seq<Node>, parts: Path)
    requires parts != []
    decreases |parts|
  {
    var i := Find(tree, parts[0]);
    i == |tree| ||
    (i + 1 == |tree| && (|parts| > 1 && tree[i].Dir? ==> AtEnd(tree[i].children, parts[1..])))
  }

  /** Placing a path at the end adds its entry at the end. */
  lemma {:induction false} PlaceFlat(tree: seq<Node>, parts: Path, hash: Hash)
    requires Wf(tree) && parts != [] && NoneBelow(tree, parts) && AtEnd(tree, parts)
    requires Place(tree, parts, hash).Done?
    ensures Flat(Place(tree, parts, hash).tree) == Flat(tree) + [Entry(parts, hash)]
    decreases |parts|
  {
    var i := Find(tree, parts[0]);
    if i == |tree| {
      ChainFlat(parts, hash);
      FlatOne(Chain(parts, hash));
      FlatAppend(tree, [Chain(parts, hash)]);
    } else {
      ChildrenNoneBelow(tree, i, parts);
      PlaceFlat(tree[i].children, parts[1..], hash);
      var inner := Place(tree[i].children, parts[1..], hash).tree;
      ReplaceFlat(tree, i, inner, Entry(parts[1..], hash));
      assert [parts[0]] + parts[1..] == parts;
    }
  }

  lemma ReplaceFlat(tree: seq<Node>, i: nat, inner: seq<Node>, e: Entry)
    requires i + 1 == |tree| && tree[i].Dir? && Flat(inner) == Flat(tree[i].children) + [e]
    ensures Flat(tree[i := Dir(tree[i].title, inner)]) == Flat(tree) + [Entry([tree[i].title] + e.path, e.hash)]
  {
    var node := Dir(tree[i].title, inner);
    FlatAppend(tree[..i], [node]);
    FlatAppend(tree[..i], [tree[i]]);
    FlatOne(node);
    FlatOne(tree[i]);
    assert tree[i := node] == tree[..i] + [node] && tree == tree[..i] + [tree[i]];
    assert Under(node.title, Flat(inner)) == FlatNode(tree[i]) + [Entry([node.title] + e.path, e.hash)];
  }

  /** What shares a folder with `parts` is not followed by anything outside it. */
  ghost predicate LastRun(entries: seq<Entry>, parts: Path) {
    forall i, j, folder ::
      0 <= i < j < |entries| && InFolder(entries[i].path, folder) && InFolder(parts, folder) && folder != [] ==>
        InFolder(entries[j].path, folder)
  }

  lemma {:induction false} RunAtEnd(tree: seq<Node>, parts: Path, hash: Hash)
    requires Wf(tree) && parts != [] && NoneBelow(tree, parts) && LastRun(Flat(tree), parts)
    requires Place(tree, parts, hash).Done?
    ensures AtEnd(tree, parts)
    decreases |parts|
  {
    var i := Find(tree, parts[0]);
    if i < |tree| {
      ChildrenNoneBelow(tree, i, parts);
      if i + 1 < |tree| { RunBroken(tree, i, parts); }
      FlatAppend(tree[..i], [tree[i]]);
      FlatOne(tree[i]);
      assert tree == tree[..i] + [tree[i]];
      RunInside(Flat(tree[..i]), tree[i].title, Flat(tree[i].children), parts);
      RunAtEnd(tree[i].children, parts[1..], hash);
    }
  }

  /** A branch after that of `parts` would come between its files and `parts`. */
  lemma RunBroken(tree: seq<Node>, i: nat, parts: Path)
    requires Wf(tree) && i + 1 < |tree| && tree[i].Dir? && |parts| > 1 && tree[i].title == parts[0]
    ensures !LastRun(Flat(tree), parts)
  {
    var a, b := tree[i], tree[i+1];
    WfAt(tree, i);
    WfAt(tree, i + 1);
    NodeEntries(a);
    NodeEntries(b);
    assert FlatNode(a)[0] in FlatNode(a) && FlatNode(b)[0] in FlatNode(b);
    FlatTwo(tree, i);
    hide Flat, FlatNode, Wf;
    var x, y := |Flat(tree[..i])|, |Flat(tree[..i])| + |FlatNode(a)|;
    assert Flat(tree)[x] == FlatNode(a)[0] && Flat(tree)[y] == FlatNode(b)[0];
    var folder := [parts[0]];
    assert InFolder(parts, folder) && InFolder(Flat(tree)[x].path, folder) && !InFolder(Flat(tree)[y].path, folder);
  }

  lemma WfAt(tree: seq<Node>, i: nat)
    requires Wf(tree) && i < |tree|
    ensures Wf([tree[i]])
  {
  }

  lemma Cut(tree: seq<Node>, i: nat)
    requires i < |tree|
    ensures tree == tree[..i] + tree[i..] && tree[i..] == [tree[i]] + tree[i+1..]
  {
  }

  lemma FlatFrom(tree: seq<Node>, i: nat)
    requires i < |tree|
    ensures Flat(tree[i..]) == FlatNode(tree[i]) + Flat(tree[i+1..])
  {
    Cut(tree, i);
    FlatStep(tree[i], tree[i+1..]);
  }

  lemma FlatTwo(tree: seq<Node>, i: nat)
    requires i + 1 < |tree|
    ensures Flat(tree) == Flat(tree[..i]) + FlatNode(tree[i]) + FlatNode(tree[i+1]) + Flat(tree[i+2..])
  {
    Cut(tree, i);
    FlatAppend(tree[..i], tree[i..]);
    FlatFrom(tree, i);
    FlatFrom(tree, i + 1);
    var front, a, b, rest := Flat(tree[..i]), FlatNode(tree[i]), FlatNode(tree[i+1]), Flat(tree[i+2..]);
    Associates(front, a, b + rest);
    Associates(front + a, b, rest);
    hide *;
  }

  lemma RunInside(before: seq<Entry>, title: string, entries: seq<Entry>, parts: Path)
    requires |parts| > 1 && parts[0] == title && LastRun(before + Under(title, entries), parts)
    ensures LastRun(entries, parts[1..])
  {
    var all := before + Under(title, entries);
    forall i, j, folder | 0 <= i < j < |entries| && InFolder(entries[i].path, folder)
                          && InFolder(parts[1..], folder) && folder != []
      ensures InFolder(entries[j].path, folder)
    {
      var outer, m := [title] + folder, |before|;
      assert all[m + i] == Under(title, entries)[i] && all[m + j] == Under(title, entries)[j];
      assert parts == [title] + parts[1..];
      assert InFolder(all[m + i].path, outer) && InFolder(parts, outer);
      assert InFolder(all[m + j].path, outer);
      assert all[m + j].path[1..] == entries[j].path && outer[1..] == folder;
    }
  }

  lemma SortedLastRun(items: seq<Item>, n: nat)
    requires n < |items| && Sorted(items) && PrefixFree(items)
    ensures LastRun(Entries(items[..n]), Split(items[n].name))
  {
    var parts, entries := Split(items[n].name), Entries(items[..n]);
    forall i, j, folder | 0 <= i < j < n && InFolder(entries[i].path, folder)
                          && InFolder(parts, folder) && folder != []
      ensures InFolder(entries[j].path, folder)
    {
      StrictlySorted(items, i, j);
      StrictlySorted(items, j, n);
      FolderContiguous(items[i].name, items[j].name, items[n].name, folder);
    }
  }

  lemma StrictlySorted(items: seq<Item>, i: nat, j: nat)
    requires i < j < |items| && Sorted(items) && PrefixFree(items)
    ensures Less(items[i].name, items[j].name)
  {
    assert !Blocks(items[i], items[j]);
    LessTotal(items[i].name, items[j].name);
  }

  lemma {:induction false} PlaceAllFlat(tree: seq<Node>, items: seq<Item>, n: nat)
    requires n <= |items| && Sorted(items) && PrefixFree(items)
    requires Wf(tree) && Holds(tree, items[..n]) && Flat(tree) == Entries(items[..n])
    ensures Flat(PlaceAll(tree, items[n..]).tree) == Entries(items)
    decreases |items| - n
  {
    hide Flat, Wf, LastRun, NoneBelow, AtEnd, Leaf, Has, Less, Split, Place;
    if n == |items| {
      assert items[..n] == items;
    } else {
      var parts := Split(items[n].name);
      var placed := Place(tree, parts, items[n].hash);
      assert items[n..][0] == items[n] && items[n..][1..] == items[n+1..];
      if placed.Raised? {
        RaisedBlocks(tree, items, n);
      }
      NothingBelow(tree, items, n);
      SortedLastRun(items, n);
      RunAtEnd(tree, parts, items[n].hash);
      PlaceFlat(tree, parts, items[n].hash);
      PlaceDone(tree, parts, items[n].hash);
      HoldsOneMore(tree, placed.tree, items, n);
      assert Entries(items[..n+1]) == Entries(items[..n]) + [Entry(parts, items[n].hash)];
      PlaceAllFlat(placed.tree, items, n + 1);
    }
  }

  /** From left to right the tree lists the files in the order of the sort. */
  lemma ListsInOrder(data: seq<Item>)
    requires PrefixFree(data)
    ensures Flat(Generate(data).tree) == Entries(Sort(data))
  {
    var sorted := Sort(data);
    SortSorts(data);
    PrefixFreePermutes(data, sorted);
    assert sorted[..0] == [] && sorted[0..] == sorted;
    PlaceAllFlat([], sorted, 0);
  }

  // ---------------------------------------------------------------- ascending titles

  predicate PathSorted(entries: seq<Entry>) {
    forall i, j :: 0 <= i < j < |entries| ==> PathLess(entries[i].path, entries[j].path)
  }

  lemma PathLessUnder(title: string, p: Path, q: Path)
    ensures PathLess([title] + p, [title] + q) <==> PathLess(p, q)
  {
    LessIrreflexive(title);
    assert ([title] + p)[1..] == p && ([title] + q)[1..] == q;
  }

  lemma UnderSorted(title: string, entries: seq<Entry>)
    ensures PathSorted(Under(title, entries)) <==> PathSorted(entries)
  {
    var under := Under(title, entries);
    forall i, j | 0 <= i < j < |entries|
      ensures PathLess(under[i].path, under[j].path) <==> PathLess(entries[i].path, entries[j].path)
    {
      PathLessUnder(title, entries[i].path, entries[j].path);
    }
  }

  predicate Titled(tree: seq<Node>, title: string) {
    exists k :: 0 <= k < |tree| && tree[k].title == title
  }

  /** The titles of a tree are the first segments of its files. */
  lemma {:induction false} FlatTitles(tree: seq<Node>, e: Entry)
    requires Wf(tree) && e in Flat(tree)
    ensures e.path != [] && Titled(tree, e.path[0])
  {
    WfRest(tree);
    NodeEntries(tree[0]);
    hide FlatNode, Wf;
    if e !in FlatNode(tree[0]) {
      FlatTitles(tree[1..], e);
      var k :| 0 <= k < |tree[1..]| && tree[1..][k].title == e.path[0];
      assert tree[k + 1].title == e.path[0];
    }
  }

  lemma {:induction false} TitleHasEntry(tree: seq<Node>, k: nat) returns (e: Entry)
    requires Wf(tree) && k < |tree|
    ensures e in Flat(tree) && e.path != [] && e.path[0] == tree[k].title
  {
    WfRest(tree);
    NodeEntries(tree[0]);
    if k == 0 {
      e := FlatNode(tree[0])[0];
      assert e in FlatNode(tree[0]);
    } else {
      e := TitleHasEntry(tree[1..], k - 1);
    }
  }

  lemma AppendSortedPaths(a: seq<Entry>, b: seq<Entry>)
    ensures PathSorted(a + b) <==>
      PathSorted(a) && PathSorted(b) && AllLess(a, b)
  {
    var all := a + b;
    if PathSorted(all) {
      forall i, j | 0 <= i < j < |b|
        ensures PathLess(b[i].path, b[j].path)
      {
        assert all[|a| + i] == b[i] && all[|a| + j] == b[j];
      }
      forall i, j | 0 <= i < j < |a|
        ensures PathLess(a[i].path, a[j].path)
      {
        assert all[i] == a[i] && all[j] == a[j];
      }
      forall x, y | x in a && y in b
        ensures PathLess(x.path, y.path)
      {
        var i :| 0 <= i < |a| && a[i] == x;
        var j :| 0 <= j < |b| && b[j] == y;
        assert all[i] == x && all[|a| + j] == y;
      }
    }
  }

  /** The titles of a tree ascend exactly if its files are in the order of their paths. */
  lemma {:induction false} AscendingExact(tree: seq<Node>)
    requires Wf(tree)
    ensures Ascending(tree) <==> PathSorted(Flat(tree))
  {
    if tree != [] {
      var node, rest := tree[0], tree[1..];
      WfRest(tree);
      AppendSortedPaths(FlatNode(node), Flat(rest));
      AscendingExact(rest);
      if node.Dir? {
        AscendingExact(node.children);
        UnderSorted(node.title, Flat(node.children));
      }
      FirstAscends(tree);
      TitlesAbove(tree);
      hide Flat, PathLess, Less, Wf;
    }
  }

  lemma TitlesAbove(tree: seq<Node>)
    requires tree != []
    ensures AllAbove(tree[1..], tree[0].title) <==> forall k :: 0 < k < |tree| ==> Less(tree[0].title, tree[k].title)
  {
    if AllAbove(tree[1..], tree[0].title) {
      forall k | 0 < k < |tree|
        ensures Less(tree[0].title, tree[k].title)
      {
        assert tree[1..][k - 1] == tree[k];
      }
    }
  }

  lemma FirstAgainst(tree: seq<Node>, x: Entry, y: Entry)
    requires Wf(tree) && tree != [] && x in FlatNode(tree[0]) && y in Flat(tree[1..])
    ensures y.path != [] && Titled(tree[1..], y.path[0])
    ensures PathLess(x.path, y.path) <==> Less(tree[0].title, y.path[0])
  {
    WfRest(tree);
    NodeEntries(tree[0]);
    FlatTitles(tree[1..], y);
    var k :| 0 <= k < |tree[1..]| && tree[1..][k].title == y.path[0];
    assert tree[0].title != tree[k + 1].title;
    hide FlatNode, Flat, Less, Wf;
  }

  ghost predicate AllLess(a: seq<Entry>, b: seq<Entry>) {
    forall x, y :: x in a && y in b ==> PathLess(x.path, y.path)
  }

  lemma FirstAscends(tree: seq<Node>)
    requires Wf(tree) && tree != []
    ensures AllAbove(tree[1..], tree[0].title) <==> AllLess(FlatNode(tree[0]), Flat(tree[1..]))
  {
    var node, rest := tree[0], tree[1..];
    WfRest(tree);
    NodeEntries(node);
    hide FlatNode, Flat, PathLess, Less, Wf, Titled;
    if AllAbove(rest, node.title) {
      forall x, y | x in FlatNode(node) && y in Flat(rest)
        ensures PathLess(x.path, y.path)
      {
        FirstAgainst(tree, x, y);
        AboveTitled(rest, node.title, y.path[0]);
      }
    }
    if AllLess(FlatNode(node), Flat(rest)) {
      assert FlatNode(node)[0] in FlatNode(node);
      forall k | 0 <= k < |rest|
        ensures Less(node.title, rest[k].title)
      {
        var y := TitleHasEntry(rest, k);
        FirstAgainst(tree, FlatNode(node)[0], y);
      }
    }
  }

  lemma AboveTitled(tree: seq<Node>, title: string, other: string)
    requires AllAbove(tree, title) && Titled(tree, other)
    ensures Less(title, other)
  {
  }

  /** The order of the names is that of their paths. */
  predicate PathOrder(items: seq<Item>) {
    forall x, y :: x in items && y in items && Less(x.name, y.name) ==> PathLess(Split(x.name), Split(y.name))
  }

  lemma PathOrderSorted(sorted: seq<Item>)
    requires Sorted(sorted) && PrefixFree(sorted)
    ensures PathSorted(Entries(sorted)) <==> PathOrder(sorted)
  {
    hide PathLess, Less, Split;
    if PathSorted(Entries(sorted)) {
      forall x, y | x in sorted && y in sorted && Less(x.name, y.name)
        ensures PathLess(Split(x.name), Split(y.name))
      {
        var i :| 0 <= i < |sorted| && sorted[i] == x;
        var j :| 0 <= j < |sorted| && sorted[j] == y;
        LessAsymmetric(x.name, y.name);
        assert i < j;
        assert Entries(sorted)[i].path == Split(x.name) && Entries(sorted)[j].path == Split(y.name);
      }
    }
    if PathOrder(sorted) {
      forall i, j | 0 <= i < j < |sorted|
        ensures PathLess(Split(sorted[i].name), Split(sorted[j].name))
      {
        StrictlySorted(sorted, i, j);
        assert sorted[i] in sorted && sorted[j] in sorted;
      }
    }
  }

  lemma PathOrderPermutes(a: seq<Item>, b: seq<Item>)
    requires multiset(a) == multiset(b)
    ensures PathOrder(a) <==> PathOrder(b)
  {
    hide PathLess, Less, Split;
    forall x
      ensures x in a <==> x in b
    {
      assert x in a <==> x in multiset(a);
      assert x in b <==> x in multiset(b);
    }
  }

  /** A generated tree has ascending titles exactly if the list's names sort like their paths. */
  lemma GenerateAscends(data: seq<Item>)
    requires PrefixFree(data)
    ensures Ascending(Generate(data).tree) <==> PathOrder(data)
  {
    GenerateSpec(data);
    AscendingExact(Generate(data).tree);
    ListsInOrder(data);
    SortSorts(data);
    PrefixFreePermutes(data, Sort(data));
    PathOrderSorted(Sort(data));
    PathOrderPermutes(data, Sort(data));
  }

  // ---------------------------------------------------------------- the exact difference

  /**
   If on each side the names sort like their paths, the results hold exactly the files that
   are missing on the other side, differ, or lack a hash.
   */
  lemma ExactDifference(left: seq<Item>, right: seq<Item>, p: Path, h: Hash)
    requires PrefixFree(left) && PrefixFree(right) && PathOrder(left) && PathOrder(right)
    ensures var d := Diff(Generate(left).tree, Generate(right).tree);
      && (Leaf(d.0, p, h) <==> Has(left, p, h) && !(h.Some? && Has(right, p, h)))
      && (Leaf(d.1, p, h) <==> Has(right, p, h) && !(h.Some? && Has(left, p, h)))
  {
    GenerateSpec(left);
    GenerateSpec(right);
    GenerateAscends(left);
    GenerateAscends(right);
    DiffExact(Generate(left).tree, Generate(right).tree, p, h);
  }

  /** Names without characters below the slash always do. */
  lemma PlainPathOrder(items: seq<Item>)
    requires forall x :: x in items ==> Plain(x.name)
    ensures PathOrder(items)
  {
    forall x, y | x in items && y in items && Less(x.name, y.name)
      ensures PathLess(Split(x.name), Split(y.name))
    {
      PlainOrder(x.name, y.name);
    }
  }

  // ---------------------------------------------------------------- which equal files are listed

  /** On the path's way a branch comes before its own although its title is above. */
  predicate Overtaken(tree: seq<Node>, p: Path)
    requires p != []
    decreases |p|
  {
    var i := Find(tree, p[0]);
    || (exists k :: 0 <= k < i && Less(p[0], tree[k].title))
    || (i < |tree| && tree[i].Dir? && |p| > 1 && Overtaken(tree[i].children, p[1..]))
  }

  lemma OvertakenRest(tree: seq<Node>, p: Path)
    requires tree != [] && p != [] && tree[0].title != p[0]
    ensures Overtaken(tree, p) <==> Less(p[0], tree[0].title) || Overtaken(tree[1..], p)
  {
    hide Less;
    var rest, i := tree[1..], Find(tree, p[0]);
    assert i == 1 + Find(rest, p[0]);
    assert forall k :: 0 <= k < |rest| ==> rest[k] == tree[k + 1];
    assert forall k :: 0 < k < |tree| ==> tree[k] == rest[k - 1];
    if Less(p[0], tree[0].title) { assert 0 < i && Less(p[0], tree[0].title); }
  }

  /** A leaf of the tree is one of its first branch or one of the others. */
  lemma LeafFirst(tree: seq<Node>, p: Path, h: Hash)
    requires Wf(tree) && tree != [] && Leaf(tree, p, h)
    ensures if p[0] == tree[0].title then NodeLeaf(tree[0], p, h) else Leaf(tree[1..], p, h)
    ensures p[0] == tree[0].title ==> forall g :: !Leaf(tree[1..], p, g)
  {
    LeafHead(tree, p, h);
    LeafOne(tree[0], p, h);
    if p[0] == tree[0].title {
      forall g
        ensures !Leaf(tree[1..], p, g)
      {
        assert forall k :: 0 <= k < |tree[1..]| ==> tree[1..][k].title != p[0];
      }
    }
  }

  /** The titles behind the first of an ascending tree are above it, and so are the paths. */
  lemma LeafAbove(tree: seq<Node>, p: Path, h: Hash)
    requires Ascending(tree) && tree != [] && Leaf(tree, p, h)
    ensures p[0] == tree[0].title || Less(tree[0].title, p[0])
    ensures !Less(p[0], tree[0].title)
  {
    LessIrreflexive(p[0]);
    if p[0] != tree[0].title { LessAsymmetric(tree[0].title, p[0]); }
  }

  lemma EqualInFolder(a: Node, b: Node, p: Path, h: Hash)
    requires a.title == b.title && Wf([a]) && Wf([b]) && Ascending([b]) && h.Some?
    requires p != [] && NodeLeaf(a, p, h) && NodeLeaf(b, p, h)
    ensures Leaf(DiffNode(a, b).0, p, h) <==> a.Dir? && |p| > 1 && Overtaken(a.children, p[1..])
    ensures Leaf(DiffNode(a, b).1, p, h) <==> a.Dir? && |p| > 1 && Overtaken(a.children, p[1..])
    decreases a, 1
  {
    assert [a][0] == a && [b][0] == b;
    if a.Dir? {
      var (x, y) := Diff(a.children, b.children);
      EqualListed(a.children, b.children, p[1..], h);
      LeafOne(Dir(a.title, x), p, h);
      LeafOne(Dir(b.title, y), p, h);
    }
  }

  /**
   A file that both trees have with the same hash is listed, on both sides, exactly if it is overtaken
   in the one whose titles need not ascend.
   */
  lemma {:induction false} EqualListed(left: seq<Node>, right: seq<Node>, p: Path, h: Hash)
    requires Wf(left) && Wf(right) && Ascending(right) && h.Some? && Leaf(left, p, h) && Leaf(right, p, h)
    ensures Leaf(Diff(left, right).0, p, h) <==> Overtaken(left, p)
    ensures Leaf(Diff(left, right).1, p, h) <==> Overtaken(left, p)
    decreases left, 0, |right|
  {
    var a, b := left[0], right[0];
    WfRest(left);
    WfRest(right);
    LeafFirst(left, p, h);
    LeafFirst(right, p, h);
    LeafAbove(right, p, h);
    if Less(a.title, b.title) {
      EqualSkipsLeft(left, right, p, h);
    } else if Less(b.title, a.title) {
      EqualSkipsRight(left, right, p, h);
    } else {
      LessTotal(a.title, b.title);
      EqualMeets(left, right, p, h);
    }
  }

  lemma EqualSkipsLeft(left: seq<Node>, right: seq<Node>, p: Path, h: Hash)
    requires Wf(left) && Wf(right) && Ascending(right) && h.Some? && Leaf(left, p, h) && Leaf(right, p, h)
    requires left != [] && right != [] && Less(left[0].title, right[0].title)
    ensures Leaf(Diff(left, right).0, p, h) <==> Overtaken(left, p)
    ensures Leaf(Diff(left, right).1, p, h) <==> Overtaken(left, p)
    decreases left, 0, |right|, 0
  {
    var a, b := left[0], right[0];
    WfRest(left);
    LeafAbove(right, p, h);
    if p[0] != b.title { LessTransitive(a.title, b.title, p[0]); }
    LessAsymmetric(a.title, p[0]);
    LeafFirst(left, p, h);
    OvertakenRest(left, p);
    EqualListed(left[1..], right, p, h);
    LeafAppend([a], Diff(left[1..], right).0, p, h);
    LeafOne(a, p, h);
    hide Leaf, Overtaken, Wf, Ascending, Less;
  }

  lemma EqualSkipsRight(left: seq<Node>, right: seq<Node>, p: Path, h: Hash)
    requires Wf(left) && Wf(right) && Ascending(right) && h.Some? && Leaf(left, p, h) && Leaf(right, p, h)
    requires left != [] && right != [] && Less(right[0].title, left[0].title)
    ensures Leaf(Diff(left, right).0, p, h) <==> Overtaken(left, p)
    ensures Leaf(Diff(left, right).1, p, h) <==> Overtaken(left, p)
    decreases left, 0, |right|, 0
  {
    var a, b := left[0], right[0];
    LessAsymmetric(b.title, a.title);
    WfRest(right);
    LeafFirst(right, p, h);
    LeafAppend([b], Diff(left, right[1..]).1, p, h);
    LeafOne(b, p, h);
    if p[0] == b.title {
      DiffKeeps(left, right[1..], p, h);
      OvertakenRest(left, p);
    } else {
      EqualListed(left, right[1..], p, h);
    }
    hide Leaf, Overtaken, Wf, Ascending, Less;
  }

  lemma EqualMeets(left: seq<Node>, right: seq<Node>, p: Path, h: Hash)
    requires Wf(left) && Wf(right) && Ascending(right) && h.Some? && Leaf(left, p, h) && Leaf(right, p, h)
    requires left != [] && right != [] && left[0].title == right[0].title
    ensures Leaf(Diff(left, right).0, p, h) <==> Overtaken(left, p)
    ensures Leaf(Diff(left, right).1, p, h) <==> Overtaken(left, p)
    decreases left, 0, |right|, 0
  {
    var a, b := left[0], right[0];
    LessIrreflexive(a.title);
    WfRest(left);
    WfRest(right);
    LeafFirst(left, p, h);
    LeafFirst(right, p, h);
    LeafAppend(DiffNode(a, b).0, Diff(left[1..], right[1..]).0, p, h);
    LeafAppend(DiffNode(a, b).1, Diff(left[1..], right[1..]).1, p, h);
    DiffKeeps(left[1..], right[1..], p, h);
    DiffNodeKeeps(a, b, p, h);
    LeafOne(a, p, h);
    LeafOne(b, p, h);
    if p[0] == a.title {
      FirstAscending(right);
      EqualInFolder(a, b, p, h);
    } else {
      LeafAbove(right, p, h);
      OvertakenRest(left, p);
      EqualListed(left[1..], right[1..], p, h);
    }
  }

  lemma FirstAscending(tree: seq<Node>)
    requires Ascending(tree) && tree != []
    ensures Ascending([tree[0]])
  {
  }

  /** An entry for the path comes after one that is above it. */
  ghost predicate Passed(entries: seq<Entry>, p: Path) {
    exists i, j :: 0 <= i < j < |entries| && entries[j].path == p && PathLess(p, entries[i].path)
  }

  ghost predicate Above(entries: seq<Entry>, p: Path) {
    exists x :: x in entries && PathLess(p, x.path)
  }

  ghost predicate HasPath(entries: seq<Entry>, p: Path) {
    exists x :: x in entries && x.path == p
  }

  lemma PassedAppend(a: seq<Entry>, b: seq<Entry>, p: Path)
    ensures Passed(a + b, p) <==> Passed(a, p) || Passed(b, p) || (Above(a, p) && HasPath(b, p))
  {
    hide PathLess;
    var all := a + b;
    if Passed(all, p) {
      var i, j :| 0 <= i < j < |all| && all[j].path == p && PathLess(p, all[i].path);
      if j < |a| {
        assert a[i] == all[i] && a[j] == all[j];
      } else if i >= |a| {
        assert b[i - |a|] == all[i] && b[j - |a|] == all[j];
      } else {
        assert a[i] == all[i] && b[j - |a|] == all[j];
        assert a[i] in a && b[j - |a|] in b;
      }
    }
    if Passed(a, p) {
      var i, j :| 0 <= i < j < |a| && a[j].path == p && PathLess(p, a[i].path);
      assert all[i] == a[i] && all[j] == a[j];
    }
    if Passed(b, p) {
      var i, j :| 0 <= i < j < |b| && b[j].path == p && PathLess(p, b[i].path);
      assert all[|a| + i] == b[i] && all[|a| + j] == b[j];
    }
    if Above(a, p) && HasPath(b, p) {
      var x :| x in a && PathLess(p, x.path);
      var y :| y in b && y.path == p;
      var i :| 0 <= i < |a| && a[i] == x;
      var j :| 0 <= j < |b| && b[j] == y;
      assert all[i] == x && all[|a| + j] == y;
    }
  }

  lemma PassedUnder(title: string, entries: seq<Entry>, p: Path)
    ensures Passed(Under(title, entries), [title] + p) <==> Passed(entries, p)
  {
    var under := Under(title, entries);
    forall i, j | 0 <= i < |entries| && 0 <= j < |entries|
      ensures under[j].path == [title] + p <==> entries[j].path == p
      ensures PathLess([title] + p, under[i].path) <==> PathLess(p, entries[i].path)
    {
      PathLessUnder(title, p, entries[i].path);
      assert ([title] + p)[1..] == p && under[j].path[1..] == entries[j].path;
    }
    hide PathLess;
    if Passed(entries, p) {
      var i, j :| 0 <= i < j < |entries| && entries[j].path == p && PathLess(p, entries[i].path);
      assert under[j].path == [title] + p && PathLess([title] + p, under[i].path);
    }
  }

  lemma {:induction false} LeafInFlat(tree: seq<Node>, p: Path, h: Hash)
    requires Wf(tree) && Leaf(tree, p, h)
    ensures Entry(p, h) in Flat(tree)
    decreases tree
  {
    WfRest(tree);
    LeafFirst(tree, p, h);
    if p[0] != tree[0].title {
      LeafInFlat(tree[1..], p, h);
    } else if tree[0].Dir? {
      LeafInFlat(tree[0].children, p[1..], h);
      assert p == [p[0]] + p[1..];
      var inner := Flat(tree[0].children);
      var k :| 0 <= k < |inner| && inner[k] == Entry(p[1..], h);
      assert FlatNode(tree[0])[k] == Entry(p, h);
    } else {
      assert p == [p[0]];
    }
  }

  /** A path is overtaken exactly if an entry above it comes before its own. */
  lemma {:induction false} OvertakenIs(tree: seq<Node>, p: Path, h: Hash)
    requires Wf(tree) && Leaf(tree, p, h)
    ensures Overtaken(tree, p) <==> Passed(Flat(tree), p)
    decreases tree
  {
    var node, rest := tree[0], tree[1..];
    WfRest(tree);
    NodeEntries(node);
    LeafFirst(tree, p, h);
    PassedAppend(FlatNode(node), Flat(rest), p);
    if p[0] != node.title {
      OvertakenIs(rest, p, h);
      OvertakenRest(tree, p);
      LeafInFlat(rest, p, h);
      TitleAbove(node, p);
    } else {
      NotAmong(tree, p);
      OvertakenInside(tree, p, h);
    }
    hide Flat, FlatNode, Overtaken, Leaf, Wf;
  }

  lemma TitleAbove(node: Node, p: Path)
    requires Wf([node]) && p != [] && p[0] != node.title
    ensures !Passed(FlatNode(node), p) && (Above(FlatNode(node), p) <==> Less(p[0], node.title))
  {
    NodeEntries(node);
    var first := FlatNode(node)[0];
    assert first in FlatNode(node);
    hide FlatNode;
    if Less(p[0], node.title) { assert PathLess(p, first.path); }
  }

  lemma NotAmong(tree: seq<Node>, p: Path)
    requires Wf(tree) && tree != [] && p != [] && p[0] == tree[0].title
    ensures !HasPath(Flat(tree[1..]), p) && !Passed(Flat(tree[1..]), p)
  {
    WfRest(tree);
    forall e | e in Flat(tree[1..])
      ensures e.path != p
    {
      FlatTitles(tree[1..], e);
    }
    hide Flat, PathLess;
  }

  lemma OvertakenInside(tree: seq<Node>, p: Path, h: Hash)
    requires Wf(tree) && tree != [] && p != [] && p[0] == tree[0].title && NodeLeaf(tree[0], p, h)
    ensures Overtaken(tree, p) <==> Passed(FlatNode(tree[0]), p)
    decreases tree, 0
  {
    var node := tree[0];
    assert Find(tree, p[0]) == 0;
    if node.Dir? {
      OvertakenIs(node.children, p[1..], h);
      PassedUnder(node.title, Flat(node.children), p[1..]);
      assert p == [node.title] + p[1..];
    }
  }

  lemma {:induction false} PathLessTotal(p: Path, q: Path)
    ensures p == q || PathLess(p, q) || PathLess(q, p)
  {
    if p != [] && q != [] {
      LessTotal(p[0], q[0]);
      PathLessTotal(p[1..], q[1..]);
      assert p == [p[0]] + p[1..] && q == [q[0]] + q[1..];
    }
  }

  lemma {:induction false} PathLessAsymmetric(p: Path, q: Path)
    requires PathLess(p, q)
    ensures !PathLess(q, p)
  {
    if p != [] {
      LessIrreflexive(p[0]);
      if Less(p[0], q[0]) { LessAsymmetric(p[0], q[0]); } else { PathLessAsymmetric(p[1..], q[1..]); }
    }
  }

  /** A name sorts behind one whose path comes behind its own. */
  predicate OutOfOrder(items: seq<Item>, name: string) {
    exists x :: x in items && Less(x.name, name) && PathLess(Split(name), Split(x.name))
  }

  lemma SortedIndices(sorted: seq<Item>, i: nat, k: nat)
    requires Sorted(sorted) && PrefixFree(sorted) && i < |sorted| && k < |sorted|
    requires Less(sorted[i].name, sorted[k].name)
    ensures i < k
  {
    LessIrreflexive(sorted[i].name);
  }

  /** In names: some file sorts before it although its path comes behind. */
  lemma PassedIs(sorted: seq<Item>, y: Item)
    requires Sorted(sorted) && PrefixFree(sorted) && y in sorted
    ensures Passed(Entries(sorted), Split(y.name)) <==> OutOfOrder(sorted, y.name)
  {
    hide PathLess, Less, Split;
    var entries, p := Entries(sorted), Split(y.name);
    var k :| 0 <= k < |sorted| && sorted[k] == y;
    if Passed(entries, p) {
      var i, j :| 0 <= i < j < |entries| && entries[j].path == p && PathLess(p, entries[i].path);
      SplitInjective(sorted[j].name, y.name);
      StrictlySorted(sorted, i, j);
      assert sorted[i] in sorted;
    }
    if OutOfOrder(sorted, y.name) {
      var x :| x in sorted && Less(x.name, y.name) && PathLess(p, Split(x.name));
      var i :| 0 <= i < |sorted| && sorted[i] == x;
      SortedIndices(sorted, i, k);
      assert entries[i].path == Split(x.name) && entries[k].path == p;
    }
  }

  lemma OutOfOrderPermutes(a: seq<Item>, b: seq<Item>, name: string)
    requires multiset(a) == multiset(b)
    ensures OutOfOrder(a, name) <==> OutOfOrder(b, name)
  {
    hide PathLess, Less, Split;
    forall x
      ensures x in a <==> x in b
    {
      assert x in a <==> x in multiset(a);
      assert x in b <==> x in multiset(b);
    }
  }

  /**
   Against a side whose names sort like their paths, a file that is the same on both sides is listed,
   then on both, exactly if on its own side some name sorts before it whose path comes behind.
   */
  lemma EqualFileListed(left: seq<Item>, right: seq<Item>, y: Item)
    requires PrefixFree(left) && PrefixFree(right) && PathOrder(right)
    requires y in left && y in right && y.hash.Some?
    ensures var d := Diff(Generate(left).tree, Generate(right).tree);
      && (Leaf(d.0, Split(y.name), y.hash) <==> OutOfOrder(left, y.name))
      && (Leaf(d.1, Split(y.name), y.hash) <==> OutOfOrder(left, y.name))
  {
    var p, sorted := Split(y.name), Sort(left);
    GenerateSpec(left);
    GenerateSpec(right);
    GenerateAscends(right);
    InHas(left, y);
    InHas(right, y);
    EqualListed(Generate(left).tree, Generate(right).tree, p, y.hash);
    OvertakenIs(Generate(left).tree, p, y.hash);
    ListsInOrder(left);
    SortSorts(left);
    PrefixFreePermutes(left, sorted);
    assert y in sorted by { assert y in multiset(left); }
    PassedIs(sorted, y);
    OutOfOrderPermutes(left, sorted, y.name);
    hide *;
  }

  lemma InHas(items: seq<Item>, y: Item)
    requires y in items
    ensures Has(items, Split(y.name), y.hash)
  {
    var i :| 0 <= i < |items| && items[i] == y;
  }

  /**
   So the order is needed: a side with all hashes whose names do not sort like their paths has a file that
   is listed even against a side that holds just this file.
   */
  lemma OrderNeeded(left: seq<Item>) returns (y: Item)
    requires PrefixFree(left) && !PathOrder(left) && forall x :: x in left ==> x.hash.Some?
    ensures y in left && PrefixFree([y]) && PathOrder([y])
    ensures var d := Diff(Generate(left).tree, Generate([y]).tree);
      Leaf(d.0, Split(y.name), y.hash) && Leaf(d.1, Split(y.name), y.hash)
  {
    var x, z :| x in left && z in left && Less(x.name, z.name) && !PathLess(Split(x.name), Split(z.name));
    y := z;
    LessIrreflexive(y.name);
    PathLessTotal(Split(x.name), Split(y.name));
    if Split(x.name) == Split(y.name) { SplitInjective(x.name, y.name); }
    hide Less, PathLess, Split;
    assert OutOfOrder(left, y.name);
    EqualFileListed(left, [y], y);
  }

  /** The merge treats both sides alike. */
  lemma {:induction false} DiffSwaps(left: seq<Node>, right: seq<Node>)
    ensures Diff(right, left) == (Diff(left, right).1, Diff(left, right).0)
    decreases left, 0, |right|
  {
    if left != [] && right != [] {
      var a, b := left[0], right[0];
      if Less(a.title, b.title) {
        LessAsymmetric(a.title, b.title);
        DiffSwaps(left[1..], right);
      } else if Less(b.title, a.title) {
        DiffSwaps(left, right[1..]);
      } else {
        LessTotal(a.title, b.title);
        DiffSwaps(left[1..], right[1..]);
        DiffNodeSwaps(a, b);
      }
    }
  }

  lemma {:induction false} DiffNodeSwaps(a: Node, b: Node)
    requires a.title == b.title
    ensures DiffNode(b, a) == (DiffNode(a, b).1, DiffNode(a, b).0)
    decreases a, 1
  {
    if a.Dir? && b.Dir? { DiffSwaps(a.children, b.children); }
  }

  /** Whatever the order, a file that is missing on the other side, differs or lacks a hash is listed. */
  lemma NoneHidden(left: seq<Item>, right: seq<Item>, p: Path, h: Hash)
    requires PrefixFree(left) && PrefixFree(right)
    ensures var d := Diff(Generate(left).tree, Generate(right).tree);
      && (Has(left, p, h) && !(h.Some? && Has(right, p, h)) ==> Leaf(d.0, p, h))
      && (Has(right, p, h) && !(h.Some? && Has(left, p, h)) ==> Leaf(d.1, p, h))
      && (Leaf(d.0, p, h) ==> Has(left, p, h)) && (Leaf(d.1, p, h) ==> Has(right, p, h))
  {
    GenerateSpec(left);
    GenerateSpec(right);
    DiffKeeps(Generate(left).tree, Generate(right).tree, p, h);
  }

  /** A file whose name extends a folder's name by a character below the slash. */
  function Dotted(): seq<Item> {
    [Item("a.t", Some("1")), Item("a/x", Some("2"))]
  }

  function Folder(): seq<Node> {
    [Dir("a", [File("x", Some("2"))])]
  }

  lemma DottedSorted()
    ensures Sort(Dotted()) == Dotted() && Sort(Dotted()[1..]) == Dotted()[1..]
  {
    assert "a.t"[1..] == ".t" && "a/x"[1..] == "/x";
    assert Less("a.t", "a/x");
    LessAsymmetric("a.t", "a/x");
    hide Less, Sort;
    SortedStays(Dotted());
    SortedStays(Dotted()[1..]);
  }

  lemma DottedPlaced(f: Node)
    requires f == File("a.t", Some("1"))
    ensures Place([], ["a.t"], Some("1")) == Done([f]) && Place([], ["a", "x"], Some("2")) == Done(Folder())
    ensures Place([f], ["a", "x"], Some("2")) == Done([f] + Folder())
  {
    assert Chain(["a.t"], Some("1")) == f && [Chain(["a", "x"], Some("2"))] == Folder();
  }

  lemma DottedTrees()
    ensures Generate(Dotted()).tree == [File("a.t", Some("1"))] + Folder()
    ensures Generate(Dotted()[1..]).tree == Folder()
  {
    var f := File("a.t", Some("1"));
    ShortNames();
    DottedSorted();
    DottedPlaced(f);
    hide Split, Sort, Place, Folder;
    var items := Dotted();
    assert items[1..][1..] == [] && items[1..][0] == items[1];
    assert PlaceAll([f], items[1..]) == Done([f] + Folder());
  }

  lemma FolderReported(f: Node)
    requires f.title == "a.t"
    ensures Diff([f] + Folder(), Folder()) == ([f] + Folder(), Folder())
    ensures Leaf([f] + Folder(), ["a", "x"], Some("2"))
  {
    var d := Folder()[0];
    assert "a.t"[1..] == ".t" && "a"[1..] == "";
    assert Less("a", "a.t") && !Less("a.t", "a");
    assert Folder()[1..] == [] && [d] + [] == Folder();
    assert NodeLeaf(d.children[0], ["x"], Some("2"));
    assert ["a", "x"][1..] == ["x"];
    assert NodeLeaf(([f] + Folder())[1], ["a", "x"], Some("2"));
  }

  /** With such a character it need not: `a/x` is the same on both sides and still reported. */
  lemma DotBeforeSlash()
    ensures var left, right := Dotted(), Dotted()[1..];
      && Has(left, ["a", "x"], Some("2")) && Has(right, ["a", "x"], Some("2"))
      && Leaf(Diff(Generate(left).tree, Generate(right).tree).0, ["a", "x"], Some("2"))
  {
    ShortNames();
    DottedTrees();
    FolderReported(File("a.t", Some("1")));
    hide Split, Generate, Leaf, Diff;
    assert Split(Dotted()[1].name) == ["a", "x"] && Split(Dotted()[1..][0].name) == ["a", "x"];
  }
}
