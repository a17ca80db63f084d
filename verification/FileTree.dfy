/**
 The file trees of an integrity check (file_utils.py): building a tree from a sorted list
 of names and hashes, and the merge that drops what both sides have in common.
 */
module FileTree {
  import opened Options
  import opened Names

  type Hash = Option<string>
  type Path = seq<string>

  datatype Item = Item(name: string, hash: Hash)

  datatype Node =
    | File(title: string, hash: Hash)
    | Dir(title: string, children: seq<Node>)

  /** `path` with `hash` is a file of the tree: what flattening it lists. */
  predicate Leaf(tree: seq<Node>, path: Path, hash: Hash)
    decreases |path|
  {
    path != [] && exists i :: 0 <= i < |tree| && NodeLeaf(tree[i], path, hash)
  }

  predicate NodeLeaf(node: Node, path: Path, hash: Hash)
    requires path != []
    decreases |path|, 0
  {
    && node.title == path[0]
    && match node
       case File(_, h) => |path| == 1 && h == hash
       case Dir(_, children) => |path| > 1 && Leaf(children, path[1..], hash)
  }

  // ---------------------------------------------------------------- building

  function Sort(data: seq<Item>): seq<Item> {
    if data == [] then [] else Insert(Sort(data[..|data| - 1]), data[|data| - 1])
  }

  /** After the last item whose name is not greater: sort is stable. */
  function Insert(sorted: seq<Item>, item: Item): seq<Item> {
    if sorted == [] || !Less(item.name, sorted[|sorted| - 1].name) then sorted + [item]
    else Insert(sorted[..|sorted| - 1], item) + [sorted[|sorted| - 1]]
  }

  /** The first branch with the title, or the number of branches. */
  function Find(branches: seq<Node>, title: string): (i: nat)
    ensures i <= |branches|
    ensures i < |branches| ==> branches[i].title == title
    ensures forall k :: 0 <= k < i ==> branches[k].title != title
  {
    if branches == [] || branches[0].title == title then 0 else 1 + Find(branches[1..], title)
  }

  function Chain(parts: Path, hash: Hash): Node
    requires parts != []
  {
    if |parts| == 1 then File(parts[0], hash) else Dir(parts[0], [Chain(parts[1..], hash)])
  }

  /** The tree after placing one leaf, or as an exception leaves it. */
  datatype Placed = Done(tree: seq<Node>) | Raised(tree: seq<Node>)

  /** _generate_tree_leaf: looking up 'children' of a file raises, and so does deleting them. */
  function Place(branches: seq<Node>, parts: Path, hash: Hash): Placed
    requires parts != []
    decreases |parts|
  {
    var i := Find(branches, parts[0]);
    if i == |branches| then Done(branches + [Chain(parts, hash)])
    else if |parts| == 1 then
      var placed := branches[i := File(parts[0], hash)];
      if branches[i].File? then Raised(placed) else Done(placed)
    else if branches[i].File? then Raised(branches)
    else
      var inner := Place(branches[i].children, parts[1..], hash);
      var tree := branches[i := Dir(parts[0], inner.tree)];
      if inner.Done? then Done(tree) else Raised(tree)
  }

  /** The loop over the sorted items; an exception ends it and keeps the tree so far. */
  function PlaceAll(tree: seq<Node>, items: seq<Item>): Placed
    decreases |items|
  {
    if items == [] then Done(tree)
    else
      var placed := Place(tree, Split(items[0].name), items[0].hash);
      if placed.Raised? then placed else PlaceAll(placed.tree, items[1..])
  }

  function Generate(data: seq<Item>): Placed {
    PlaceAll([], Sort(data))
  }

  method GenerateFileTree(data: seq<Item>) returns (tree: seq<Node>, raised: bool)
    ensures tree == Generate(data).tree && raised == Generate(data).Raised?
  {
    var sorted := [];
    for n := 0 to |data|
      invariant sorted == Sort(data[..n])
    {
      assert data[..n+1][..n] == data[..n];
      sorted := InsertItem(sorted, data[n]);
    }
    assert data[..|data|] == data;
    tree, raised := [], false;
    var n := 0;
    while n < |sorted| && !raised
      invariant 0 <= n <= |sorted|
      invariant (if raised then Raised(tree) else PlaceAll(tree, sorted[n..])) == Generate(data)
    {
      var placed := Place(tree, Split(sorted[n].name), sorted[n].hash);
      assert sorted[n..][1..] == sorted[n+1..];
      tree, raised := placed.tree, placed.Raised?;
      n := n + 1;
    }
  }

  method InsertItem(sorted: seq<Item>, item: Item) returns (r: seq<Item>)
    ensures r == Insert(sorted, item)
  {
    var n := |sorted|;
    assert sorted[..n] == sorted && Insert(sorted, item) == Insert(sorted, item) + [];
    while n > 0 && Less(item.name, sorted[n-1].name)
      invariant 0 <= n <= |sorted|
      invariant Insert(sorted, item) == Insert(sorted[..n], item) + sorted[n..]
    {
      assert sorted[..n][..n-1] == sorted[..n-1];
      assert sorted[n-1..] == [sorted[n-1]] + sorted[n..];
      n := n - 1;
    }
    r := sorted[..n] + [item] + sorted[n..];
  }

  // ---------------------------------------------------------------- comparing

  /** What two nodes of the same title leave on either side. */
  function DiffNode(a: Node, b: Node): (seq<Node>, seq<Node>)
    decreases a, 1
  {
    if a.Dir? && b.Dir? then
      var (x, y) := Diff(a.children, b.children);
      if x == [] && y == [] then ([], []) else ([Dir(a.title, x)], [Dir(b.title, y)])
    else if a.File? && b.File? && a.hash.Some? && b.hash.Some? then
      if a.hash != b.hash then ([a], [b]) else ([], [])
    else ([a], [b])
  }

  /** remove_identical_branches */
  function Diff(left: seq<Node>, right: seq<Node>): (seq<Node>, seq<Node>)
    decreases left, 0, |right|
  {
    if left == [] || right == [] then (left, right)
    else if Less(left[0].title, right[0].title) then
      var (x, y) := Diff(left[1..], right);
      ([left[0]] + x, y)
    else if Less(right[0].title, left[0].title) then
      var (x, y) := Diff(left, right[1..]);
      (x, [right[0]] + y)
    else
      var (a, b) := DiffNode(left[0], right[0]);
      var (x, y) := Diff(left[1..], right[1..]);
      (a + x, b + y)
  }

  lemma DiffUnfold(left: seq<Node>, right: seq<Node>, i: nat, j: nat)
    requires i < |left| && j < |right|
    ensures var d := Diff(left[i..], right[j..]);
      if Less(left[i].title, right[j].title) then
        var rest := Diff(left[i+1..], right[j..]); d == ([left[i]] + rest.0, [] + rest.1)
      else if Less(right[j].title, left[i].title) then
        var rest := Diff(left[i..], right[j+1..]); d == ([] + rest.0, [right[j]] + rest.1)
      else
        var rest, e := Diff(left[i+1..], right[j+1..]), DiffNode(left[i], right[j]);
        d == (e.0 + rest.0, e.1 + rest.1)
  {
    hide DiffNode, Less;
    assert left[i..][1..] == left[i+1..] && right[j..][1..] == right[j+1..];
    assert forall nodes: seq<Node> {:trigger [] + nodes} :: [] + nodes == nodes;
  }

  /** `left` and `right` are what the loop has found before the rest. */
  predicate Found(all: (seq<Node>, seq<Node>), left: seq<Node>, right: seq<Node>, rest: (seq<Node>, seq<Node>)) {
    all == (left + rest.0, right + rest.1)
  }

  lemma FoundMore(all: (seq<Node>, seq<Node>), left: seq<Node>, right: seq<Node>,
      e: (seq<Node>, seq<Node>), rest: (seq<Node>, seq<Node>))
    requires Found(all, left, right, (e.0 + rest.0, e.1 + rest.1))
    ensures Found(all, left + e.0, right + e.1, rest)
  {
    assert left + (e.0 + rest.0) == left + e.0 + rest.0 && right + (e.1 + rest.1) == right + e.1 + rest.1;
  }

  method RemoveIdenticalBranches(left: seq<Node>, right: seq<Node>) returns (newLeft: seq<Node>, newRight: seq<Node>)
    ensures (newLeft, newRight) == Diff(left, right)
    decreases left
  {
    newLeft, newRight := [], [];
    var i, j := 0, 0;
    ghost var all := Diff(left, right);
    assert left[0..] == left && right[0..] == right && all.0 == [] + all.0 && all.1 == [] + all.1;
    while i < |left| && j < |right|
      invariant 0 <= i <= |left| && 0 <= j <= |right|
      invariant Found(all, newLeft, newRight, Diff(left[i..], right[j..]))
      decreases |left| - i + |right| - j
    {
      hide Diff, Found, Less, DiffNode;
      var a, b := left[i], right[j];
      DiffUnfold(left, right, i, j);
      if Less(a.title, b.title) {
        FoundMore(all, newLeft, newRight, ([a], []), Diff(left[i+1..], right[j..]));
        newLeft := newLeft + [a];
        i := i + 1;
      } else if Less(b.title, a.title) {
        FoundMore(all, newLeft, newRight, ([], [b]), Diff(left[i..], right[j+1..]));
        newRight := newRight + [b];
        j := j + 1;
      } else {
        FoundMore(all, newLeft, newRight, DiffNode(a, b), Diff(left[i+1..], right[j+1..]));
        var both := CompareNodes(a, b);
        newLeft, newRight := newLeft + both.0, newRight + both.1;
        i := i + 1;
        j := j + 1;
      }
    }
    assert Diff(left[i..], right[j..]) == (left[i..], right[j..]);
    newLeft := newLeft + left[i..];
    newRight := newRight + right[j..];
  }

  /** What two branches of one title add to the results. */
  method CompareNodes(a: Node, b: Node) returns (both: (seq<Node>, seq<Node>))
    ensures both == DiffNode(a, b)
    decreases a
  {
    both := ([], []);
    if a.Dir? && b.Dir? {
      var x, y := RemoveIdenticalBranches(a.children, b.children);
      if !(|x| == 0 && |y| == 0) { // at least one side still has a difference
        both := ([Dir(a.title, x)], [Dir(b.title, y)]);
      }
    } else if a.File? && b.File? && a.hash.Some? && b.hash.Some? {
      if a.hash != b.hash { both := ([a], [b]); }
    } else { // one is a file, the other a folder, or a hash is missing
      both := ([a], [b]);
    }
  }
}
