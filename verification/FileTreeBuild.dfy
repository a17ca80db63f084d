/** What generate_file_tree builds, exactly when it completes, and what a check's verdict means. */
module FileTreeBuild {
  import opened Options
  import opened Names
  import opened FileTree
  import opened FileTreeDiff

  // ---------------------------------------------------------------- sorting

  predicate Sorted(items: seq<Item>) {
    forall i, j :: 0 <= i < j < |items| ==> !Less(items[j].name, items[i].name)
  }

  lemma AppendSorted(front: seq<Item>, last: Item)
    requires Sorted(front) && forall x :: x in front ==> !Less(last.name, x.name)
    ensures Sorted(front + [last])
  {
    hide Less;
  }

  lemma NotBelow(item: string, some: string, last: string)
    requires !Less(last, some) && !Less(item, last)
    ensures !Less(item, some)
  {
    LessTotal(some, last);
    hide Less;
    if Less(item, some) && Less(some, last) { LessTransitive(item, some, last); }
  }

  lemma {:induction false} InsertSorts(sorted: seq<Item>, item: Item)
    requires Sorted(sorted)
    ensures Sorted(Insert(sorted, item))
    ensures multiset(Insert(sorted, item)) == multiset(sorted) + multiset{item}
  {
    hide Less;
    if sorted != [] {
      var n := |sorted| - 1;
      var front, last := sorted[..n], sorted[n];
      assert sorted == front + [last];
      if Less(item.name, last.name) {
        InsertSorts(front, item);
        var inner := Insert(front, item);
        LessAsymmetric(item.name, last.name);
        forall x | x in inner
          ensures !Less(last.name, x.name)
        {
          assert x in multiset(inner);
          assert x in multiset(front) || x == item;
        }
        AppendSorted(inner, last);
      } else {
        forall x | x in sorted
          ensures !Less(item.name, x.name)
        {
          if x != last { NotBelow(item.name, x.name, last.name); }
        }
        AppendSorted(sorted, item);
      }
    }
  }

  lemma {:induction false} SortSorts(data: seq<Item>)
    ensures Sorted(Sort(data)) && multiset(Sort(data)) == multiset(data)
  {
    hide Insert, Less;
    if data != [] {
      var n := |data| - 1;
      SortSorts(data[..n]);
      InsertSorts(Sort(data[..n]), data[n]);
      assert data == data[..n] + [data[n]];
    }
  }

  function Named(items: seq<Item>, name: string): seq<Item> {
    if items == [] then []
    else Named(items[..|items| - 1], name) + if items[|items| - 1].name == name then [items[|items| - 1]] else []
  }

  lemma InsertStep(front: seq<Item>, last: Item, item: Item)
    ensures Insert(front + [last], item) ==
      if Less(item.name, last.name) then Insert(front, item) + [last] else front + [last] + [item]
  {
    assert (front + [last])[..|front|] == front;
  }

  lemma {:induction false} InsertNamed(sorted: seq<Item>, item: Item, name: string)
    ensures Named(Insert(sorted, item), name) == Named(sorted, name) + if item.name == name then [item] else []
  {
    if sorted == [] {
      NamedAppend([], item, name);
      assert [] + [item] == [item];
    } else {
      hide Less, Insert, Named;
      var front, last := sorted[..|sorted| - 1], sorted[|sorted| - 1];
      assert sorted == front + [last];
      InsertStep(front, last, item);
      if Less(item.name, last.name) {
        LessIs(item.name, last.name);
        InsertNamed(front, item, name);
        NamedAppend(Insert(front, item), last, name);
        NamedAppend(front, last, name);
      } else {
        NamedAppend(sorted, item, name);
      }
    }
  }

  lemma LessIs(a: string, b: string)
    requires Less(a, b)
    ensures a != b
  {
    LessIrreflexive(a);
  }

  lemma NamedAppend(items: seq<Item>, last: Item, name: string)
    ensures Named(items + [last], name) == Named(items, name) + if last.name == name then [last] else []
  {
    assert (items + [last])[..|items|] == items;
  }

  /** The sort is stable: items of one name stay in the order in which they were given. */
  lemma {:induction false} SortStable(data: seq<Item>, name: string)
    ensures Named(Sort(data), name) == Named(data, name)
  {
    if data != [] {
      SortStable(data[..|data| - 1], name);
      InsertNamed(Sort(data[..|data| - 1]), data[|data| - 1], name);
    }
  }

  predicate Distinct(items: seq<Item>) {
    forall i, j :: 0 <= i < j < |items| ==> items[i].name != items[j].name
  }

  /** Two sorted lists of the same items are the same list. */
  lemma {:induction false} SortedUnique(a: seq<Item>, b: seq<Item>)
    requires Sorted(a) && Sorted(b) && Distinct(a) && Distinct(b)
    requires forall x :: x in a <==> x in b
    ensures a == b
  {
    assert a != [] ==> a[0] in a;
    assert b != [] ==> b[0] in b;
    if a != [] && b != [] {
      var i :| 0 <= i < |b| && b[i] == a[0];
      var j :| 0 <= j < |a| && a[j] == b[0];
      LessTotal(a[0].name, b[0].name);
      assert a[0] == b[0];
      assert a == [a[0]] + a[1..] && b == [b[0]] + b[1..];
      forall x
        ensures x in a[1..] <==> x in b[1..]
      {
        assert a[0] !in a[1..] && b[0] !in b[1..];
        assert x in a <==> x == a[0] || x in a[1..];
        assert x in b <==> x == b[0] || x in b[1..];
      }
      SortedUnique(a[1..], b[1..]);
    }
  }

  // ---------------------------------------------------------------- placing one leaf

  /** Titles differ at every level and no folder is empty. */
  predicate Wf(tree: seq<Node>) {
    && (forall i, j :: 0 <= i < j < |tree| ==> tree[i].title != tree[j].title)
    && (forall i :: 0 <= i < |tree| && tree[i].Dir? ==> tree[i].children != [] && Wf(tree[i].children))
  }

  /** Every folder has a file somewhere below it. */
  lemma {:induction false} SomeLeaf(tree: seq<Node>) returns (p: Path, h: Hash)
    requires Wf(tree) && tree != []
    ensures Leaf(tree, p, h) && p[0] == tree[0].title
    decreases tree
  {
    if tree[0].File? {
      p, h := [tree[0].title], tree[0].hash;
    } else {
      var q, g := SomeLeaf(tree[0].children);
      p, h := [tree[0].title] + q, g;
      assert p[1..] == q;
    }
    assert NodeLeaf(tree[0], p, h);
  }

  lemma {:induction false} ChainLeaf(parts: Path, hash: Hash, p: Path, h: Hash)
    requires parts != []
    ensures Leaf([Chain(parts, hash)], p, h) <==> p == parts && h == hash
    ensures Wf([Chain(parts, hash)])
    decreases |parts|
  {
    LeafOne(Chain(parts, hash), p, h);
    if |parts| > 1 {
      if |p| > 1 {
        ChainLeaf(parts[1..], hash, p[1..], h);
        assert p == [p[0]] + p[1..] && parts == [parts[0]] + parts[1..];
      } else {
        ChainLeaf(parts[1..], hash, parts[1..], hash);
      }
    }
  }

  /** A path's leaf is under the one branch with its first title. */
  lemma LeafAtFind(tree: seq<Node>, p: Path, h: Hash)
    requires Wf(tree) && p != []
    ensures var i := Find(tree, p[0]); Leaf(tree, p, h) <==> i < |tree| && NodeLeaf(tree[i], p, h)
  {
    var i := Find(tree, p[0]);
    if Leaf(tree, p, h) {
      var k :| 0 <= k < |tree| && NodeLeaf(tree[k], p, h);
      assert k == i;
    }
  }

  /** A file on the way, or at the end of it, raises. */
  lemma {:induction false} PlaceRaises(tree: seq<Node>, parts: Path, hash: Hash, q: Path, g: Hash)
    requires Wf(tree) && Leaf(tree, q, g) && q <= parts
    ensures Place(tree, parts, hash).Raised?
    decreases |parts|
  {
    LeafAtFind(tree, q, g);
    var i := Find(tree, parts[0]);
    if tree[i].Dir? {
      assert q[1..] <= parts[1..];
      PlaceRaises(tree[i].children, parts[1..], hash, q[1..], g);
    }
  }

  lemma {:induction false} RaisedWhy(tree: seq<Node>, parts: Path, hash: Hash) returns (q: Path, g: Hash)
    requires Wf(tree) && parts != [] && Place(tree, parts, hash).Raised?
    ensures Leaf(tree, q, g) && q <= parts
    decreases |parts|
  {
    var i := Find(tree, parts[0]);
    if tree[i].File? {
      q, g := [parts[0]], tree[i].hash;
    } else {
      var r, f := RaisedWhy(tree[i].children, parts[1..], hash);
      q, g := [parts[0]] + r, f;
      assert q[1..] == r;
    }
    assert NodeLeaf(tree[i], q, g);
  }

  ghost predicate NoneBelow(tree: seq<Node>, parts: Path) {
    forall q, g :: Leaf(tree, q, g) ==> !(parts < q)
  }

  lemma ChildrenNoneBelow(tree: seq<Node>, i: nat, parts: Path)
    requires Wf(tree) && i < |tree| && tree[i].Dir? && parts != [] && tree[i].title == parts[0]
    requires NoneBelow(tree, parts)
    ensures |parts| > 1 && NoneBelow(tree[i].children, parts[1..])
  {
    var p, h := SomeLeaf(tree[i].children);
    assert NodeLeaf(tree[i], [parts[0]] + p, h) by { assert ([parts[0]] + p)[1..] == p; }
    if |parts| == 1 {
      assert parts < [parts[0]] + p;
      assert Leaf(tree, [parts[0]] + p, h);
    }
    forall q, g | Leaf(tree[i].children, q, g)
      ensures !(parts[1..] < q)
    {
      assert ([parts[0]] + q)[1..] == q;
      assert NodeLeaf(tree[i], [parts[0]] + q, g);
      assert Leaf(tree, [parts[0]] + q, g);
      assert parts == [parts[0]] + parts[1..];
    }
  }

  /** `after` has one leaf more. */
  ghost predicate AddsLeaf(tree: seq<Node>, after: seq<Node>, parts: Path, hash: Hash) {
    forall p, h :: Leaf(after, p, h) <==> Leaf(tree, p, h) || (p == parts && h == hash)
  }

  /** Replacing a branch only concerns the paths that begin with its title. */
  lemma ReplaceAt(tree: seq<Node>, i: nat, node: Node, p: Path, h: Hash)
    requires i < |tree| && node.title == tree[i].title && p != []
    requires forall j, k :: 0 <= j < k < |tree| ==> tree[j].title != tree[k].title
    ensures p[0] != node.title ==> (Leaf(tree[i := node], p, h) <==> Leaf(tree, p, h))
    ensures p[0] == node.title ==> (Leaf(tree[i := node], p, h) <==> NodeLeaf(node, p, h))
    ensures p[0] == node.title ==> (Leaf(tree, p, h) <==> NodeLeaf(tree[i], p, h))
  {
    var d := tree[i := node];
    if Leaf(tree, p, h) {
      var k :| 0 <= k < |tree| && NodeLeaf(tree[k], p, h);
      assert k != i ==> NodeLeaf(d[k], p, h);
    }
    if Leaf(d, p, h) {
      var k :| 0 <= k < |d| && NodeLeaf(d[k], p, h);
      assert k != i ==> NodeLeaf(tree[k], p, h);
    }
    assert d[i] == node;
  }

  lemma InsideOne(tree: seq<Node>, i: nat, parts: Path, hash: Hash, inner: seq<Node>, p: Path, h: Hash)
    requires Wf(tree) && i < |tree| && |parts| > 1 && tree[i].Dir? && tree[i].title == parts[0] && p != []
    requires Leaf(inner, p[1..], h) <==> Leaf(tree[i].children, p[1..], h) || (p[1..] == parts[1..] && h == hash)
    ensures Leaf(tree[i := Dir(parts[0], inner)], p, h) <==> Leaf(tree, p, h) || (p == parts && h == hash)
  {
    hide Leaf;
    ReplaceAt(tree, i, Dir(parts[0], inner), p, h);
    assert parts == [parts[0]] + parts[1..] && p == [p[0]] + p[1..];
  }

  lemma InsideAdds(tree: seq<Node>, i: nat, parts: Path, hash: Hash, inner: seq<Node>)
    requires Wf(tree) && i < |tree| && |parts| > 1 && tree[i].Dir? && tree[i].title == parts[0]
    requires AddsLeaf(tree[i].children, inner, parts[1..], hash)
    ensures AddsLeaf(tree, tree[i := Dir(parts[0], inner)], parts, hash)
  {
    forall p, h
      ensures Leaf(tree[i := Dir(parts[0], inner)], p, h) <==> Leaf(tree, p, h) || (p == parts && h == hash)
    {
      if p != [] { InsideOne(tree, i, parts, hash, inner, p, h); }
    }
  }

  lemma AppendAdds(tree: seq<Node>, parts: Path, hash: Hash)
    requires parts != []
    ensures AddsLeaf(tree, tree + [Chain(parts, hash)], parts, hash)
  {
    forall p, h
      ensures Leaf(tree + [Chain(parts, hash)], p, h) <==> Leaf(tree, p, h) || (p == parts && h == hash)
    {
      LeafAppend(tree, [Chain(parts, hash)], p, h);
      ChainLeaf(parts, hash, p, h);
      hide Leaf, Chain;
    }
  }

  /** A leaf that nothing blocks is added, and nothing else changes. */
  lemma {:induction false} PlaceDone(tree: seq<Node>, parts: Path, hash: Hash)
    requires Wf(tree) && parts != [] && NoneBelow(tree, parts) && Place(tree, parts, hash).Done?
    ensures Wf(Place(tree, parts, hash).tree)
    ensures AddsLeaf(tree, Place(tree, parts, hash).tree, parts, hash)
    decreases |parts|
  {
    hide Leaf, AddsLeaf, NoneBelow;
    var d := Place(tree, parts, hash).tree;
    var i := Find(tree, parts[0]);
    ChainLeaf(parts, hash, parts, hash);
    if i == |tree| {
      AppendAdds(tree, parts, hash);
    } else {
      ChildrenNoneBelow(tree, i, parts);
      PlaceDone(tree[i].children, parts[1..], hash);
      InsideAdds(tree, i, parts, hash, Place(tree[i].children, parts[1..], hash).tree);
      NotEmptied(tree[i].children, parts[1..], hash);
    }
  }

  lemma NotEmptied(tree: seq<Node>, parts: Path, hash: Hash)
    requires tree != [] && parts != []
    ensures Place(tree, parts, hash).tree != []
  {
  }

  // ---------------------------------------------------------------- placing all

  predicate Has(items: seq<Item>, p: Path, h: Hash) {
    exists i :: 0 <= i < |items| && Split(items[i].name) == p && items[i].hash == h
  }

  /** Flattening the tree lists exactly the items. */
  ghost predicate Holds(tree: seq<Node>, items: seq<Item>) {
    forall p, h :: Leaf(tree, p, h) <==> Has(items, p, h)
  }

  predicate Blocks(a: Item, b: Item) {
    Split(a.name) <= Split(b.name)
  }

  /** No item is the folder of another, or has its name. */
  predicate PrefixFree(items: seq<Item>) {
    forall i, j :: 0 <= i < |items| && 0 <= j < |items| && i != j ==> !Blocks(items[i], items[j])
  }

  /** The same, looking only at earlier items. */
  predicate Unblocked(items: seq<Item>, n: nat)
    requires n <= |items|
  {
    forall i, j :: 0 <= i < j < |items| && n <= j ==> !Blocks(items[i], items[j])
  }

  lemma BlocksSorts(a: Item, b: Item)
    requires Blocks(a, b)
    ensures !Less(b.name, a.name) && (a.name != b.name ==> Less(a.name, b.name))
  {
    JoinSplit(a.name);
    JoinSplit(b.name);
    LessIrreflexive(a.name);
    if Split(a.name) != Split(b.name) {
      SegmentPrefixIsPrefix(Split(a.name), Split(b.name));
      PrefixLess(a.name, b.name);
      LessAsymmetric(a.name, b.name);
    }
  }

  lemma RaisedBlocks(tree: seq<Node>, items: seq<Item>, n: nat)
    requires n < |items| && Wf(tree) && Holds(tree, items[..n])
    requires Place(tree, Split(items[n].name), items[n].hash).Raised?
    ensures exists i :: 0 <= i < n && Blocks(items[i], items[n])
  {
    var q, g := RaisedWhy(tree, Split(items[n].name), items[n].hash);
    var i :| 0 <= i < n && Split(items[..n][i].name) == q && items[..n][i].hash == g;
    assert Blocks(items[i], items[n]);
  }

  lemma {:induction false} PlaceAllSpec(tree: seq<Node>, items: seq<Item>, n: nat)
    requires n <= |items| && Sorted(items) && Wf(tree) && Holds(tree, items[..n])
    ensures PlaceAll(tree, items[n..]).Done? <==> Unblocked(items, n)
    ensures PlaceAll(tree, items[n..]).Done? ==>
      Wf(PlaceAll(tree, items[n..]).tree) && Holds(PlaceAll(tree, items[n..]).tree, items)
    decreases |items| - n
  {
    if n == |items| {
      assert items[..n] == items;
      return;
    }
    var item := items[n];
    var parts := Split(item.name);
    var placed := Place(tree, parts, item.hash);
    assert items[n..][0] == item && items[n..][1..] == items[n+1..];
    if placed.Raised? {
      RaisedBlocks(tree, items, n);
    } else {
      forall i | 0 <= i < n
        ensures !Blocks(items[i], items[n])
      {
        if Blocks(items[i], items[n]) {
          assert items[..n][i] == items[i];
          PlaceRaises(tree, parts, item.hash, Split(items[i].name), items[i].hash);
        }
      }
      NothingBelow(tree, items, n);
      PlaceDone(tree, parts, item.hash);
      HoldsOneMore(tree, placed.tree, items, n);
      PlaceAllSpec(placed.tree, items, n + 1);
    }
  }

  /** Sorting puts a folder's name before the names below it. */
  lemma NothingBelow(tree: seq<Node>, items: seq<Item>, n: nat)
    requires n < |items| && Sorted(items) && Holds(tree, items[..n])
    ensures NoneBelow(tree, Split(items[n].name))
  {
    forall q, g | Leaf(tree, q, g)
      ensures !(Split(items[n].name) < q)
    {
      var i :| 0 <= i < n && Split(items[..n][i].name) == q && items[..n][i].hash == g;
      if Split(items[n].name) < q {
        BlocksSorts(items[n], items[i]);
      }
    }
  }

  lemma HoldsOneMore(tree: seq<Node>, d: seq<Node>, items: seq<Item>, n: nat)
    requires n < |items| && Holds(tree, items[..n])
    requires forall p, h :: Leaf(d, p, h) <==> Leaf(tree, p, h) || (p == Split(items[n].name) && h == items[n].hash)
    ensures Holds(d, items[..n+1])
  {
    forall p, h
      ensures Leaf(d, p, h) <==> Has(items[..n+1], p, h)
    {
      if Has(items[..n], p, h) {
        var i :| 0 <= i < n && Split(items[..n][i].name) == p && items[..n][i].hash == h;
        assert items[..n+1][i] == items[..n][i];
      }
      if p == Split(items[n].name) && h == items[n].hash { assert items[..n+1][n] == items[n]; }
      if Has(items[..n+1], p, h) {
        var i :| 0 <= i < n + 1 && Split(items[..n+1][i].name) == p && items[..n+1][i].hash == h;
        if i < n { assert items[..n][i] == items[..n+1][i]; }
      }
    }
  }

  // ---------------------------------------------------------------- the whole tree

  lemma {:induction false} CountAtMostOne(items: seq<Item>, x: Item)
    requires forall i, j :: 0 <= i < j < |items| ==> items[i] != items[j]
    ensures multiset(items)[x] <= 1
  {
    if items != [] {
      assert items == [items[0]] + items[1..];
      CountAtMostOne(items[1..], x);
      assert items[0] !in items[1..];
    }
  }

  lemma CountTwo(items: seq<Item>, i: nat, j: nat)
    requires i < j < |items| && items[i] == items[j]
    ensures multiset(items)[items[i]] >= 2
  {
    assert items == items[..j] + items[j..];
    assert items[i] in items[..j] && items[j] in items[j..];
  }

  /** Being prefix-free does not depend on the order. */
  lemma PrefixFreePermutes(a: seq<Item>, b: seq<Item>)
    requires PrefixFree(a) && multiset(a) == multiset(b)
    ensures PrefixFree(b)
  {
    forall i, j | 0 <= i < |b| && 0 <= j < |b| && i != j
      ensures !Blocks(b[i], b[j])
    {
      assert b[i] in multiset(b) && b[j] in multiset(b);
      var k :| 0 <= k < |a| && a[k] == b[i];
      var l :| 0 <= l < |a| && a[l] == b[j];
      if b[i] == b[j] {
        CountTwo(b, if i < j then i else j, if i < j then j else i);
        CountAtMostOne(a, b[i]);
      }
    }
  }

  lemma SortedUnblocked(items: seq<Item>)
    requires Sorted(items)
    ensures Unblocked(items, 0) <==> PrefixFree(items)
  {
    forall i, j | 0 <= i < j < |items| && Blocks(items[j], items[i])
      ensures Blocks(items[i], items[j])
    {
      BlocksSorts(items[j], items[i]);
    }
  }

  /**
   generate_file_tree completes exactly if no name is a folder of another, or is given
   twice; then flattening its tree lists exactly the given files.
   */
  lemma GenerateSpec(data: seq<Item>)
    ensures Generate(data).Done? <==> PrefixFree(data)
    ensures Generate(data).Done? ==> Wf(Generate(data).tree) && Holds(Generate(data).tree, data)
  {
    var sorted := Sort(data);
    SortSorts(data);
    SortedUnblocked(sorted);
    assert sorted[..0] == [] && sorted[0..] == sorted;
    PlaceAllSpec([], sorted, 0);
    if PrefixFree(data) { PrefixFreePermutes(data, sorted); }
    if PrefixFree(sorted) { PrefixFreePermutes(sorted, data); }
    if Generate(data).Done? {
      forall p, h
        ensures Has(data, p, h) <==> Has(sorted, p, h)
      {
        if Has(data, p, h) { SameHas(data, sorted, p, h); }
        if Has(sorted, p, h) { SameHas(sorted, data, p, h); }
      }
    }
  }

  lemma SameHas(a: seq<Item>, b: seq<Item>, p: Path, h: Hash)
    requires multiset(a) == multiset(b) && Has(a, p, h)
    ensures Has(b, p, h)
  {
    var i :| 0 <= i < |a| && Split(a[i].name) == p && a[i].hash == h;
    assert a[i] in multiset(b);
    var j :| 0 <= j < |b| && b[j] == a[i];
    assert Split(b[j].name) == p && b[j].hash == h;
  }

  lemma {:induction false} HashedLeaf(tree: seq<Node>, p: Path, h: Hash)
    requires AllHashed(tree) && Leaf(tree, p, h)
    ensures h.Some?
    decreases tree
  {
    LeafHead(tree, p, h);
    LeafOne(tree[0], p, h);
    if Leaf(tree[1..], p, h) {
      HashedLeaf(tree[1..], p, h);
    } else if tree[0].Dir? {
      HashedLeaf(tree[0].children, p[1..], h);
    }
  }

  lemma {:induction false} UnhashedLeaf(tree: seq<Node>) returns (p: Path)
    requires !AllHashed(tree)
    ensures Leaf(tree, p, None)
    decreases tree
  {
    if !AllHashed(tree[1..]) {
      p := UnhashedLeaf(tree[1..]);
    } else if tree[0].File? {
      p := [tree[0].title];
      LeafOne(tree[0], p, None);
    } else {
      var q := UnhashedLeaf(tree[0].children);
      p := [tree[0].title] + q;
      assert p[1..] == q;
      LeafOne(tree[0], p, None);
    }
    LeafHead(tree, p, None);
  }

  /** Both sides list the same files with the same hashes. */
  ghost predicate SameFiles(left: seq<Item>, right: seq<Item>) {
    forall p, h :: Has(left, p, h) <==> Has(right, p, h)
  }

  lemma SameFilesSameTree(left: seq<Item>, right: seq<Item>)
    requires PrefixFree(left) && PrefixFree(right) && SameFiles(left, right)
    ensures Generate(left) == Generate(right)
  {
    SortSorts(left);
    SortSorts(right);
    forall x
      ensures x in Sort(left) <==> x in Sort(right)
    {
      ItemMoves(left, right, x);
      ItemMoves(right, left, x);
    }
    PrefixFreePermutes(left, Sort(left));
    PrefixFreePermutes(right, Sort(right));
    SortedUnique(Sort(left), Sort(right));
  }

  lemma ItemMoves(a: seq<Item>, b: seq<Item>, x: Item)
    requires SameFiles(a, b) && multiset(Sort(a)) == multiset(a) && multiset(Sort(b)) == multiset(b)
    ensures x in Sort(a) ==> x in Sort(b)
  {
    if x in Sort(a) {
      assert x in multiset(a);
      var i :| 0 <= i < |a| && a[i] == x;
      assert Has(a, Split(x.name), x.hash);
      var j :| 0 <= j < |b| && Split(b[j].name) == Split(x.name) && b[j].hash == x.hash;
      SplitInjective(b[j].name, x.name);
      assert b[j] == x && b[j] in multiset(b);
    }
  }

  /**
   The verdict of a check on prefix-free sides needs no order of titles: both results are
   empty exactly if the sides list the same files with the same hashes and no hash is
   missing.
   */
  lemma Verdict(left: seq<Item>, right: seq<Item>)
    requires PrefixFree(left) && PrefixFree(right)
    ensures Diff(Generate(left).tree, Generate(right).tree) == ([], []) <==>
      SameFiles(left, right) && forall p, h :: Has(left, p, h) ==> h.Some?
  {
    var l, r := Generate(left).tree, Generate(right).tree;
    GenerateSpec(left);
    GenerateSpec(right);
    DiffEmpty(l, r);
    if AllHashed(l) {
      forall p, h | Has(left, p, h) ensures h.Some? { HashedLeaf(l, p, h); }
    } else {
      var p := UnhashedLeaf(l);
      assert Has(left, p, None);
    }
    if SameFiles(left, right) {
      SameFilesSameTree(left, right);
    }
  }

  /** A file, a folder of its name, and one file more. */
  function Beside(last: Item): seq<Item> {
    [Item("a", Some("1")), Item("a/b", Some("2")), last]
  }

  lemma LastDiffers()
    ensures Has(Beside(Item("c", Some("3"))), ["c"], Some("3"))
    ensures !Has(Beside(Item("d", Some("4"))), ["c"], Some("3"))
  {
    ShortNames();
    hide Split;
    var left, right := Beside(Item("c", Some("3"))), Beside(Item("d", Some("4")));
    assert Split(left[2].name) == ["c"] && left[2].hash == Some("3");
    assert right[0].hash != Some("3") && right[1].hash != Some("3") && right[2].hash != Some("3");
  }

  /** Without prefix-freedom the verdict can be wrong: a file beside a folder of its name hides what follows. */
  lemma TruncationHidesFiles()
    ensures var left, right := Beside(Item("c", Some("3"))), Beside(Item("d", Some("4")));
      Diff(Generate(left).tree, Generate(right).tree) == ([], []) && !SameFiles(left, right)
  {
    LastDiffers();
    hide Has, Generate;
    Truncated(Beside(Item("c", Some("3"))));
    Truncated(Beside(Item("d", Some("4"))));
    DiffEmpty([File("a", Some("1"))], [File("a", Some("1"))]);
  }

  lemma ShortNames()
    ensures Split("a") == ["a"] && Split("b") == ["b"] && Split("c") == ["c"] && Split("d") == ["d"]
    ensures Split("x") == ["x"] && Split("a/b") == ["a", "b"] && Split("a/x") == ["a", "x"] && Split("a.t") == ["a.t"]
  {
    hide Split;
    OneName('a');
    OneName('b');
    OneName('c');
    OneName('d');
    OneName('x');
    assert "a" == ['a'] && "b" == ['b'] && "c" == ['c'] && "d" == ['d'] && "x" == ['x'];
    TwoNames('a', 'b');
    TwoNames('a', 'x');
    assert "a/b" == ['a', '/', 'b'] && "a/x" == ['a', '/', 'x'];
    OneName('t');
    SplitStep('.', ['t']);
    SplitStep('a', ".t");
    assert ".t" == ['.'] + ['t'] && "a.t" == ['a'] + ".t";
  }

  lemma OneName(c: char)
    requires c != '/'
    ensures Split([c]) == [[c]]
  {
    SplitStep(c, "");
    assert [c] + "" == [c];
  }

  lemma TwoNames(a: char, b: char)
    requires a != '/' && b != '/'
    ensures Split([a, '/', b]) == [[a], [b]]
  {
    hide Split;
    OneName(b);
    SplitStep('/', [b]);
    SplitStep(a, ['/', b]);
    assert ['/'] + [b] == ['/', b] && [a] + ['/', b] == [a, '/', b];
    assert [a] + "" == [a];
  }

  lemma SortedStays(items: seq<Item>)
    requires forall i :: 0 < i < |items| ==> !Less(items[i].name, items[i-1].name)
    ensures Sort(items) == items
  {
    hide Less, Insert;
    if items != [] {
      var front, last := items[..|items| - 1], items[|items| - 1];
      SortedStays(front);
      InsertLast(front, last);
      assert Sort(items) == Insert(front, last);
      assert items == front + [last];
    }
  }

  lemma InsertLast(front: seq<Item>, last: Item)
    requires front != [] ==> !Less(last.name, front[|front| - 1].name)
    ensures Insert(front, last) == front + [last]
  {
  }

  lemma Truncated(items: seq<Item>)
    requires |items| == 3 && items[0] == Item("a", Some("1")) && items[1] == Item("a/b", Some("2"))
    requires items[2].name == "c" || items[2].name == "d"
    ensures Generate(items) == Raised([File("a", Some("1"))])
  {
    ShortNames();
    assert "a"[1..] == "" && "a/b"[1..] == "/b";
    assert !Less("a/b", "a") && !Less(items[2].name, "a/b");
    SortedStays(items);
    var f := File("a", Some("1"));
    assert Chain(["a"], Some("1")) == f && [] + [f] == [f];
    assert Place([], ["a"], Some("1")) == Done([f]);
    assert Place([f], ["a", "b"], Some("2")) == Raised([f]);
    assert items[1..][0] == items[1];
    assert PlaceAll([f], items[1..]) == Raised([f]);
  }
}
