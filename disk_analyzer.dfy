/**
 * The disk analyzer: a scan of a directory into a tree of sizes, and the
 * state of the interactive browser over that tree.
 */
module Disk {
  import opened Common
  import opened Sorting

  // ---------------------------------------------------------------------
  // The scanned filesystem and the size tree

  /**
   * A filesystem entry as the scan sees it: `isDir` follows links as
   * `Path.is_dir` does, `size` and `device` are what `stat` reports (`None`
   * when it fails), `readable` says whether `os.scandir` succeeds, and
   * `listing` holds a directory's entries in the order `scandir` yields them.
   */
  datatype Entry = Entry(path: string, name: string, isDir: bool, isSymlink: bool,
                         size: Option<nat>, device: Option<int>, readable: bool, listing: seq<Entry>)

  /** `FileNode`; its parent link is the position of the node in the tree. */
  datatype Node = Node(path: string, name: string, isDir: bool, size: int, children: seq<Node>, error: bool)

  datatype ScanConfig = ScanConfig(excludePatterns: seq<string>, followSymlinks: bool, oneFilesystem: bool)

  /** `path.name or str(path)`. */
  function NodeName(e: Entry): string {
    if e.name == "" then e.path else e.name
  }

  /**
   * A new `FileNode`: a file takes its size from `stat`, or size 0 and the
   * error flag when `stat` fails; a directory starts at size 0.
   */
  function NewNode(e: Entry): (n: Node)
    ensures n.path == e.path && n.name == NodeName(e) && n.isDir == e.isDir && n.children == []
    ensures n.size == if !e.isDir && e.size.Some? then e.size.value else 0
    ensures n.error <==> !e.isDir && e.size.None?
  {
    if e.isDir then Node(e.path, NodeName(e), true, 0, [], false)
    else match e.size
      case Some(s) => Node(e.path, NodeName(e), false, s, [], false)
      case None => Node(e.path, NodeName(e), false, 0, [], true)
  }

  function NodeSize(n: Node): int {
    n.size
  }

  /** `sort(key=lambda x: x.size, reverse=True)`: larger first. */
  function BySizeDesc(): (Node, Node) -> bool {
    ByIntKey(NodeSize, true)
  }

  /** In one-filesystem mode, a directory on another device than the root of the scan. */
  predicate OtherDevice(cfg: ScanConfig, rootDevice: Option<int>, e: Entry) {
    cfg.oneFilesystem && rootDevice.Some? && e.device.Some? && e.device.value != rootDevice.value
  }

  /** A listed entry is scanned unless it is a symbolic link that is not followed. */
  predicate Followed(cfg: ScanConfig, e: Entry) {
    cfg.followSymlinks || !e.isSymlink
  }

  /**
   * `_scan_recursive`: an excluded path or a file is a leaf; a directory on
   * another device or one that cannot be listed is a leaf marked as an
   * error; otherwise the followed entries are scanned in listing order, the
   * directory weighs their sum and keeps them largest first.
   */
  function ScanNode(cfg: ScanConfig, rootDevice: Option<int>, e: Entry): Node
    decreases e
  {
    var node := NewNode(e);
    if ShouldExclude(cfg.excludePatterns, e.path) || !e.isDir then node
    else if OtherDevice(cfg, rootDevice, e) || !e.readable then node.(error := true)
    else
      var kids := ScanAll(cfg, rootDevice, e.listing);
      node.(size := SumBy(kids, NodeSize), children := SortBy(kids, BySizeDesc()))
  }

  /** The nodes of the followed entries of a listing, in listing order. */
  function ScanAll(cfg: ScanConfig, rootDevice: Option<int>, es: seq<Entry>): seq<Node>
    decreases es
  {
    if es == [] then []
    else (if Followed(cfg, es[0]) then [ScanNode(cfg, rootDevice, es[0])] else []) + ScanAll(cfg, rootDevice, es[1..])
  }

  /** One entry of a listing taken off the front. */
  lemma ScanAllStep(cfg: ScanConfig, rootDevice: Option<int>, es: seq<Entry>, i: nat)
    requires i < |es|
    ensures ScanAll(cfg, rootDevice, es[i..])
      == (if Followed(cfg, es[i]) then [ScanNode(cfg, rootDevice, es[i])] else []) + ScanAll(cfg, rootDevice, es[i + 1..])
  {
    assert es[i..][0] == es[i] && es[i..][1..] == es[i + 1..];
  }

  /** The nodes scanned so far and those of the rest of the listing, one entry further on. */
  lemma ScanAllAdvance(cfg: ScanConfig, rootDevice: Option<int>, es: seq<Entry>, i: nat, done: seq<Node>)
    requires i < |es| && done + ScanAll(cfg, rootDevice, es[i..]) == ScanAll(cfg, rootDevice, es)
    ensures Followed(cfg, es[i]) ==>
      (done + [ScanNode(cfg, rootDevice, es[i])]) + ScanAll(cfg, rootDevice, es[i + 1..]) == ScanAll(cfg, rootDevice, es)
    ensures !Followed(cfg, es[i]) ==> done + ScanAll(cfg, rootDevice, es[i + 1..]) == ScanAll(cfg, rootDevice, es)
  {
    ScanAllStep(cfg, rootDevice, es, i);
    if Followed(cfg, es[i]) {
      assert done + ([ScanNode(cfg, rootDevice, es[i])] + ScanAll(cfg, rootDevice, es[i + 1..]))
        == (done + [ScanNode(cfg, rootDevice, es[i])]) + ScanAll(cfg, rootDevice, es[i + 1..]);
    } else {
      assert [] + ScanAll(cfg, rootDevice, es[i + 1..]) == ScanAll(cfg, rootDevice, es[i + 1..]);
    }
  }

  /**
   * The size tree is aggregated: every directory weighs the sum of its
   * children, which are ordered largest first, and files have no children.
   */
  ghost predicate Aggregated(n: Node)
    decreases n
  {
    && (n.isDir ==> n.size == SumBy(n.children, NodeSize))
    && (!n.isDir ==> n.children == [])
    && SortedBy(n.children, BySizeDesc())
    && (forall c :: c in n.children ==> Aggregated(c))
  }

  /** Every scanned tree is aggregated. */
  lemma {:induction false} ScanAggregated(cfg: ScanConfig, rootDevice: Option<int>, e: Entry)
    ensures Aggregated(ScanNode(cfg, rootDevice, e))
    decreases e
  {
    if !ShouldExclude(cfg.excludePatterns, e.path) && e.isDir && !OtherDevice(cfg, rootDevice, e) && e.readable {
      var kids := ScanAll(cfg, rootDevice, e.listing);
      var sorted := SortBy(kids, BySizeDesc());
      ScanAllAggregated(cfg, rootDevice, e.listing);
      ByIntKeyOrder(NodeSize, true);
      SortBySorted(kids, BySizeDesc());
      SortByPermutes(kids, BySizeDesc());
      SumByPermutation(kids, sorted, NodeSize);
      forall c | c in sorted ensures Aggregated(c) {
        assert c in multiset(sorted);
      }
    }
  }

  lemma {:induction false} ScanAllAggregated(cfg: ScanConfig, rootDevice: Option<int>, es: seq<Entry>)
    ensures forall c :: c in ScanAll(cfg, rootDevice, es) ==> Aggregated(c)
    decreases es
  {
    if es != [] {
      if Followed(cfg, es[0]) {
        ScanAggregated(cfg, rootDevice, es[0]);
      }
      ScanAllAggregated(cfg, rootDevice, es[1..]);
    }
  }

  /** The nodes of a listing are exactly those of its followed entries: symbolic links are skipped unless followed. */
  lemma {:induction false} ScanAllMembers(cfg: ScanConfig, rootDevice: Option<int>, es: seq<Entry>, c: Node)
    ensures c in ScanAll(cfg, rootDevice, es) <==> exists x :: x in es && Followed(cfg, x) && c == ScanNode(cfg, rootDevice, x)
    decreases es
  {
    if es != [] {
      ScanAllMembers(cfg, rootDevice, es[1..], c);
      assert forall x :: x in es <==> x == es[0] || x in es[1..];
    }
  }

  /** A scanned directory's children are the nodes of its followed entries. */
  lemma ScanChildren(cfg: ScanConfig, rootDevice: Option<int>, e: Entry, c: Node)
    requires !ShouldExclude(cfg.excludePatterns, e.path) && e.isDir && !OtherDevice(cfg, rootDevice, e) && e.readable
    ensures c in ScanNode(cfg, rootDevice, e).children
      <==> exists x :: x in e.listing && Followed(cfg, x) && c == ScanNode(cfg, rootDevice, x)
  {
    var kids := ScanAll(cfg, rootDevice, e.listing);
    ScanAllMembers(cfg, rootDevice, e.listing, c);
    SortByPermutes(kids, BySizeDesc());
    assert c in SortBy(kids, BySizeDesc()) <==> c in multiset(kids);
  }

  /**
   * An excluded path, and a directory across a filesystem boundary or
   * that cannot be listed, yields a node without children; the last two
   * are marked as errors.
   */
  lemma ScanLeaves(cfg: ScanConfig, rootDevice: Option<int>, e: Entry)
    ensures ShouldExclude(cfg.excludePatterns, e.path) ==> ScanNode(cfg, rootDevice, e) == NewNode(e)
    ensures !ShouldExclude(cfg.excludePatterns, e.path) && e.isDir && (OtherDevice(cfg, rootDevice, e) || !e.readable) ==>
      var n := ScanNode(cfg, rootDevice, e);
      n.children == [] && n.error && n.size == 0
  {
  }

  /** The number of nodes below `n`. */
  function Descendants(n: Node): nat
    decreases n
  {
    DescendantsAll(n.children)
  }

  function DescendantsAll(ns: seq<Node>): nat
    decreases ns
  {
    if ns == [] then 0 else 1 + Descendants(ns[0]) + DescendantsAll(ns[1..])
  }

  /** A node together with the nodes below it. */
  function Weight(n: Node): int {
    1 + Descendants(n)
  }

  lemma {:induction false} DescendantsAllSum(ns: seq<Node>)
    ensures DescendantsAll(ns) == SumBy(ns, Weight)
  {
    if ns != [] {
      DescendantsAllSum(ns[1..]);
    }
  }

  lemma CountAppend(ns: seq<Node>, c: Node)
    ensures DescendantsAll(ns + [c]) == DescendantsAll(ns) + 1 + Descendants(c)
  {
    DescendantsAllSum(ns + [c]);
    DescendantsAllSum(ns);
    SumByAppend(ns, [c], Weight);
  }

  /** Appending a child adds its size to the sum and it and its descendants to the count. */
  lemma AppendChild(ns: seq<Node>, c: Node)
    ensures SumBy(ns + [c], NodeSize) == SumBy(ns, NodeSize) + c.size
    ensures DescendantsAll(ns + [c]) == DescendantsAll(ns) + 1 + Descendants(c)
  {
    SumByAppend(ns, [c], NodeSize);
    assert SumBy([c], NodeSize) == c.size;
    CountAppend(ns, c);
  }

  lemma CountPermutation(a: seq<Node>, b: seq<Node>)
    requires multiset(a) == multiset(b)
    ensures DescendantsAll(a) == DescendantsAll(b)
  {
    DescendantsAllSum(a);
    DescendantsAllSum(b);
    SumByPermutation(a, b, Weight);
  }

  /** `DiskScanner`: the configuration, the number of nodes scanned so far and the root's device. */
  class DiskScanner {
    const excludePatterns: seq<string>
    const followSymlinks: bool
    const oneFilesystem: bool
    var scannedCount: nat
    var rootDevice: Option<int>

    function Config(): ScanConfig {
      ScanConfig(excludePatterns, followSymlinks, oneFilesystem)
    }

    constructor(excludePatterns: seq<string>, followSymlinks: bool, oneFilesystem: bool)
      ensures Config() == ScanConfig(excludePatterns, followSymlinks, oneFilesystem)
      ensures scannedCount == 0 && rootDevice == None
    {
      this.excludePatterns := excludePatterns;
      this.followSymlinks := followSymlinks;
      this.oneFilesystem := oneFilesystem;
      scannedCount := 0;
      rootDevice := None;
    }

    /** `scan`: in one-filesystem mode the root's device is recorded first (kept as it was when `stat` fails). */
    method Scan(root: Entry) returns (node: Node)
      modifies this
      ensures rootDevice == if oneFilesystem && root.device.Some? then root.device else old(rootDevice)
      ensures node == ScanNode(Config(), rootDevice, root)
      ensures scannedCount == old(scannedCount) + Descendants(node)
    {
      if oneFilesystem && root.device.Some? {
        rootDevice := root.device;
      }
      node := ScanRecursive(root);
    }

    /**
     * `_scan_recursive`: builds the node of `e`; every node appended below
     * it is counted once in `scannedCount`.
     */
    method ScanRecursive(e: Entry) returns (node: Node)
      modifies this`scannedCount
      decreases e, 1
      ensures node == ScanNode(Config(), rootDevice, e)
      ensures scannedCount == old(scannedCount) + Descendants(node)
    {
      node := NewNode(e);
      if ShouldExclude(excludePatterns, e.path) {
        return;
      }
      if e.isDir {
        if OtherDevice(Config(), rootDevice, e) {
          node := node.(error := true);
          return;
        }
        if !e.readable {
          node := node.(error := true);
        } else {
          node := ScanListing(e);
        }
      }
      SortByPermutes(node.children, BySizeDesc());
      CountPermutation(node.children, SortBy(node.children, BySizeDesc()));
      node := node.(children := SortBy(node.children, BySizeDesc()));
    }

    /**
     * The loop of `_scan_recursive` over a directory's listing: each
     * followed entry is scanned, appended and added to the size.
     */
    method ScanListing(e: Entry) returns (node: Node)
      requires e.isDir
      modifies this`scannedCount
      decreases e, 0
      ensures node.children == ScanAll(Config(), rootDevice, e.listing)
      ensures node == NewNode(e).(size := SumBy(node.children, NodeSize), children := node.children)
      ensures scannedCount == old(scannedCount) + DescendantsAll(node.children)
    {
      var children, size := [], 0;
      var i := 0;
      while i < |e.listing|
        invariant 0 <= i <= |e.listing|
        invariant children + ScanAll(Config(), rootDevice, e.listing[i..]) == ScanAll(Config(), rootDevice, e.listing)
        invariant size == SumBy(children, NodeSize)
        invariant scannedCount == old(scannedCount) + DescendantsAll(children)
      {
        var entry := e.listing[i];
        ScanAllAdvance(Config(), rootDevice, e.listing, i, children);
        if !followSymlinks && entry.isSymlink {
          i := i + 1;
          continue;
        }
        var child := ScanRecursive(entry);
        AppendChild(children, child);
        children, size := children + [child], size + child.size;
        scannedCount := scannedCount + 1;
        i := i + 1;
      }
      assert e.listing[i..] == [];
      node := NewNode(e).(size := size, children := children);
    }
  }

  // ---------------------------------------------------------------------
  // Positions in the tree

  /** The indices lead from `root` down to a node of the tree. */
  predicate ValidPath(root: Node, path: seq<nat>)
    decreases |path|
  {
    path == [] || (path[0] < |root.children| && ValidPath(root.children[path[0]], path[1..]))
  }

  /** The node the indices lead to. */
  function NodeAt(root: Node, path: seq<nat>): Node
    requires ValidPath(root, path)
    decreases |path|
  {
    if path == [] then root else NodeAt(root.children[path[0]], path[1..])
  }

  /** Following `p` and then `q` is following `p + q`. */
  lemma {:induction false} NodeAtConcat(root: Node, p: seq<nat>, q: seq<nat>)
    requires ValidPath(root, p)
    ensures ValidPath(root, p + q) <==> ValidPath(NodeAt(root, p), q)
    ensures ValidPath(root, p + q) ==> NodeAt(root, p + q) == NodeAt(NodeAt(root, p), q)
    decreases |p|
  {
    if p == [] {
      assert p + q == q;
    } else {
      assert (p + q)[0] == p[0] && (p + q)[1..] == p[1..] + q;
      NodeAtConcat(root.children[p[0]], p[1..], q);
    }
  }

  /** One index further down is the child at that index. */
  lemma NodeAtChild(root: Node, path: seq<nat>, j: nat)
    requires ValidPath(root, path) && j < |NodeAt(root, path).children|
    ensures ValidPath(root, path + [j]) && NodeAt(root, path + [j]) == NodeAt(root, path).children[j]
  {
    NodeAtConcat(root, path, [j]);
    assert [j][1..] == [];
  }

  /** A node other than the root is a child of the node one index up. */
  lemma NodeAtParent(root: Node, path: seq<nat>)
    requires ValidPath(root, path) && path != []
    ensures var up := path[..|path| - 1];
      && ValidPath(root, up)
      && path[|path| - 1] < |NodeAt(root, up).children|
      && NodeAt(root, path) == NodeAt(root, up).children[path[|path| - 1]]
  {
    var up, j := path[..|path| - 1], path[|path| - 1];
    assert path == up + [j];
    ValidPathPrefix(root, up, [j]);
    NodeAtConcat(root, up, [j]);
    assert [j][1..] == [];
  }

  lemma {:induction false} ValidPathPrefix(root: Node, p: seq<nat>, q: seq<nat>)
    requires ValidPath(root, p + q)
    ensures ValidPath(root, p)
    decreases |p|
  {
    if p != [] {
      assert (p + q)[0] == p[0] && (p + q)[1..] == p[1..] + q;
      ValidPathPrefix(root.children[p[0]], p[1..], q);
    }
  }

  /** The tree with the node at `path` replaced by `n`; the nodes above keep everything but that child. */
  function ReplaceAt(root: Node, path: seq<nat>, n: Node): Node
    requires ValidPath(root, path)
    decreases |path|
  {
    if path == [] then n
    else root.(children := root.children[path[0] := ReplaceAt(root.children[path[0]], path[1..], n)])
  }

  /** `a` is `b` except for the child at index `j`. */
  predicate SameExceptChild(a: Node, b: Node, j: nat) {
    && a.path == b.path && a.name == b.name && a.isDir == b.isDir && a.size == b.size && a.error == b.error
    && |a.children| == |b.children|
    && (forall i :: 0 <= i < |a.children| && i != j ==> a.children[i] == b.children[i])
  }

  /** The replaced node is found at the same place. */
  lemma {:induction false} ReplaceAtFound(root: Node, path: seq<nat>, n: Node)
    requires ValidPath(root, path)
    ensures ValidPath(ReplaceAt(root, path, n), path) && NodeAt(ReplaceAt(root, path, n), path) == n
    decreases |path|
  {
    if path != [] {
      ReplaceAtFound(root.children[path[0]], path[1..], n);
    }
  }

  /** Every node above the replaced one keeps its size, name and flags, and all of its other children. */
  lemma {:induction false} ReplaceAtAncestors(root: Node, path: seq<nat>, n: Node, k: nat)
    requires ValidPath(root, path) && k < |path|
    ensures ValidPath(root, path[..k]) && ValidPath(ReplaceAt(root, path, n), path[..k])
    ensures SameExceptChild(NodeAt(ReplaceAt(root, path, n), path[..k]), NodeAt(root, path[..k]), path[k])
    decreases k
  {
    if k > 0 {
      var child := root.children[path[0]];
      ReplaceAtAncestors(child, path[1..], n, k - 1);
      assert path[..k] == [path[0]] + path[1..][..k - 1];
      assert path[1..][k - 1] == path[k];
    }
  }

  // ---------------------------------------------------------------------
  // Lists (`list.index`, `list.remove`, negative indexing)

  /** `list.index`: the first position holding `x`. */
  function IndexOf<T(==)>(s: seq<T>, x: T): (i: nat)
    requires x in s
    ensures i < |s| && s[i] == x
    ensures forall j :: 0 <= j < i ==> s[j] != x
  {
    if s[0] == x then 0 else 1 + IndexOf(s[1..], x)
  }

  /** `list.remove`: the first occurrence of `x` taken out. */
  function RemoveFirst<T(==)>(s: seq<T>, x: T): seq<T>
    requires x in s
  {
    var i := IndexOf(s, x);
    s[..i] + s[i + 1..]
  }

  /** Removing one occurrence leaves the others in order, one fewer, and lowers any sum by its share. */
  lemma RemoveFirstMeaning<T>(s: seq<T>, x: T, f: T -> int)
    requires x in s
    ensures var r := RemoveFirst(s, x);
      && |r| == |s| - 1
      && multiset(r) == multiset(s) - multiset{x}
      && SumBy(r, f) == SumBy(s, f) - f(x)
  {
    var i := IndexOf(s, x);
    assert s == s[..i] + [x] + s[i + 1..];
    SumByAppend(s[..i] + [x], s[i + 1..], f);
    SumByAppend(s[..i], [x], f);
    SumByAppend(s[..i], s[i + 1..], f);
    assert SumBy([x], f) == f(x);
  }

  /** `items[cursor]` with Python's indexing, where -1 is the last element. */
  function Selected(items: seq<Node>, cursor: int): Node
    requires -|items| <= cursor < |items|
  {
    if cursor < 0 then items[|items| + cursor] else items[cursor]
  }

  // ---------------------------------------------------------------------
  // The browser (`DiskAnalyzerUI`)

  datatype SortMode = BySize | ByName | ByCount

  /** The `s` key: size, then name, then count, then size again. */
  function NextSort(m: SortMode): SortMode {
    match m
    case BySize => ByName
    case ByName => ByCount
    case ByCount => BySize
  }

  lemma NextSortCycles(m: SortMode)
    ensures NextSort(m) != m && NextSort(NextSort(m)) != m && NextSort(NextSort(NextSort(m))) == m
  {
  }

  function LowerName(n: Node): string {
    Lower(n.name)
  }

  /** The key of the count sort: a directory's number of children, 0 for a file. */
  function ChildCount(n: Node): int {
    if n.isDir then |n.children| else 0
  }

  /** The order of a sort mode: size and count put the largest first unless reversed, names the smallest first. */
  function ModeOrder(m: SortMode, reverse: bool): (Node, Node) -> bool {
    (a: Node, b: Node) => ModeLess(m, reverse, a, b)
  }

  predicate ModeLess(m: SortMode, reverse: bool, a: Node, b: Node) {
    match m
    case BySize => ByIntKey(NodeSize, !reverse)(a, b)
    case ByName => ByStringKey(LowerName, reverse)(a, b)
    case ByCount => ByIntKey(ChildCount, !reverse)(a, b)
  }

  lemma ModeOrderIsOrder(m: SortMode, reverse: bool)
    ensures StrictWeakOrder(ModeOrder(m, reverse))
  {
    match m
    case BySize =>
      ByIntKeyOrder(NodeSize, !reverse);
      assert forall a, b :: ModeOrder(m, reverse)(a, b) == ByIntKey(NodeSize, !reverse)(a, b);
    case ByName =>
      ByStringKeyOrder(LowerName, reverse);
      assert forall a, b :: ModeOrder(m, reverse)(a, b) == ByStringKey(LowerName, reverse)(a, b);
    case ByCount =>
      ByIntKeyOrder(ChildCount, !reverse);
      assert forall a, b :: ModeOrder(m, reverse)(a, b) == ByIntKey(ChildCount, !reverse)(a, b);
  }

  predicate NotHidden(n: Node) {
    !StartsWithDot(n.name)
  }

  /** `[c for c in children if not c.name.startswith('.')]`. */
  function WithoutHidden(ns: seq<Node>): seq<Node> {
    if ns == [] then []
    else (if NotHidden(ns[0]) then [ns[0]] else []) + WithoutHidden(ns[1..])
  }

  lemma {:induction false} WithoutHiddenIsFilter(ns: seq<Node>)
    ensures WithoutHidden(ns) == Filter(ns, NotHidden)
  {
    if ns != [] {
      WithoutHiddenIsFilter(ns[1..]);
    }
  }

  /** `get_visible_children`: the children, without dot-names unless hidden ones are shown, sorted for the mode. */
  function VisibleChildren(n: Node, showHidden: bool, mode: SortMode, reverse: bool): seq<Node> {
    var shown := if showHidden then n.children else WithoutHidden(n.children);
    SortBy(shown, ModeOrder(mode, reverse))
  }

  /** Every visible child is a child. */
  lemma VisibleChildrenIn(n: Node, showHidden: bool, mode: SortMode, reverse: bool)
    ensures forall c :: c in VisibleChildren(n, showHidden, mode, reverse) ==> c in n.children
  {
    var shown := if showHidden then n.children else Filter(n.children, NotHidden);
    WithoutHiddenIsFilter(n.children);
    SortByPermutes(shown, ModeOrder(mode, reverse));
    forall c | c in VisibleChildren(n, showHidden, mode, reverse) ensures c in n.children {
      assert c in multiset(VisibleChildren(n, showHidden, mode, reverse));
      assert c in shown;
    }
  }

  /**
   * The visible children are a permutation of the children (of those not
   * hidden, when hidden ones are not shown), sorted for the mode.
   */
  lemma VisibleChildrenMeaning(n: Node, showHidden: bool, mode: SortMode, reverse: bool)
    ensures var r := VisibleChildren(n, showHidden, mode, reverse);
      && (showHidden ==> multiset(r) == multiset(n.children))
      && (!showHidden ==> multiset(r) == multiset(Filter(n.children, NotHidden)))
      && multiset(r) <= multiset(n.children)
      && (forall c :: c in r <==> c in n.children && (showHidden || NotHidden(c)))
      && SortedBy(r, ModeOrder(mode, reverse))
  {
    var r := VisibleChildren(n, showHidden, mode, reverse);
    var shown := if showHidden then n.children else Filter(n.children, NotHidden);
    WithoutHiddenIsFilter(n.children);
    SortByPermutes(shown, ModeOrder(mode, reverse));
    ModeOrderIsOrder(mode, reverse);
    SortBySorted(shown, ModeOrder(mode, reverse));
    forall c ensures c in r <==> c in shown {
      assert c in r <==> c in multiset(r);
    }
  }

  /** The cursor keys: up/`k`, down/`j`, PgUp, PgDn, Home and End. */
  datatype Move = Up | Down | PageUp | PageDown | Home | End

  /** The cursor after a cursor key over a list of `n` visible items. */
  function Moved(m: Move, cursor: int, n: int): int {
    match m
    case Up => Max(0, cursor - 1)
    case Down => Min(n - 1, cursor + 1)
    case PageUp => Max(0, cursor - 10)
    case PageDown => Min(n - 1, cursor + 10)
    case Home => 0
    case End => n - 1
  }

  /** On a non-empty list a cursor in range stays in range. */
  lemma MovedInRange(m: Move, cursor: int, n: int)
    requires 0 <= cursor < n
    ensures 0 <= Moved(m, cursor, n) < n
  {
  }

  /** On an empty list (where `draw` leaves the cursor at 0 or -1) the downward keys put the cursor at -1, the others at 0. */
  lemma MovedOnEmpty(m: Move, cursor: int)
    requires -1 <= cursor <= 0
    ensures Moved(m, cursor, 0) == if m.Down? || m.PageDown? || m.End? then -1 else 0
  {
  }

  /** `draw`'s bound: a cursor past the end goes to the last item (0 when there is none). */
  function ClampCursor(cursor: int, n: int): int {
    if cursor >= n then Max(0, n - 1) else cursor
  }

  /** `draw`'s scrolling: the window moves just far enough to show the cursor. */
  function Scroll(cursor: int, top: int, height: int): int {
    if cursor < top then cursor
    else if cursor >= top + height then cursor - height + 1
    else top
  }

  lemma ClampCursorMeaning(cursor: int, n: nat)
    requires cursor >= -1
    ensures var c := ClampCursor(cursor, n);
      && (n > 0 && cursor >= 0 ==> 0 <= c < n)
      && (n == 0 ==> c <= 0)
      && (cursor < n ==> c == cursor)
  {
  }

  /** With room for at least one row the cursor is in the window, and a window that already shows it stays. */
  lemma ScrollShowsCursor(cursor: int, top: int, height: int)
    requires height > 0
    ensures var t := Scroll(cursor, top, height);
      && t <= cursor < t + height
      && (top <= cursor < top + height ==> t == top)
  {
  }

  /** The keys of `run`; a delete carries the answer to the confirmation and whether the removal succeeded. */
  datatype Key =
    | Quit
    | Cursor(m: Move)
    | Open
    | Back
    | ToggleHiddenKey
    | SortKey
    | ReverseKey
    | DeleteKey(confirmed: bool, removed: bool)
    | HelpKey
    | OtherKey

  /** `_delete_item`'s update of the parent: the item leaves its children and its size leaves its size. */
  function WithoutChild(parent: Node, item: Node): Node
    requires item in parent.children
  {
    parent.(children := RemoveFirst(parent.children, item), size := parent.size - item.size)
  }

  /** A parent that weighed the sum of its children still does after the removal. */
  lemma WithoutChildKeepsSum(parent: Node, item: Node)
    requires item in parent.children && parent.size == SumBy(parent.children, NodeSize)
    ensures var p := WithoutChild(parent, item);
      && p.size == SumBy(p.children, NodeSize)
      && |p.children| == |parent.children| - 1
      && multiset(p.children) == multiset(parent.children) - multiset{item}
  {
    RemoveFirstMeaning(parent.children, item, NodeSize);
  }

  /** The browser's fields as one value: the state `draw` and each key act on. */
  datatype View = View(root: Node, path: seq<nat>, showHidden: bool, scrollTop: int, cursorPos: int,
                       visibleItems: seq<Node>, sortBy: SortMode, sortReverse: bool)

  /** The current node exists and the cursor is at least -1 (where the cursor keys can leave it). */
  ghost predicate ViewValid(v: View) {
    ValidPath(v.root, v.path) && v.cursorPos >= -1
  }

  /** Every visible item is a child of the current node. */
  ghost predicate ViewDrawn(v: View)
    requires ValidPath(v.root, v.path)
  {
    forall x :: x in v.visibleItems ==> x in NodeAt(v.root, v.path).children
  }

  /** What `draw` leaves: fresh visible items, the cursor bounded, the window scrolled to it. */
  function Redrawn(v: View, maxY: int): (r: View)
    requires ViewValid(v)
    ensures ViewValid(r) && ViewDrawn(r)
  {
    VisibleChildrenIn(NodeAt(v.root, v.path), v.showHidden, v.sortBy, v.sortReverse);
    var items := VisibleChildren(NodeAt(v.root, v.path), v.showHidden, v.sortBy, v.sortReverse);
    var c := ClampCursor(v.cursorPos, |items|);
    v.(visibleItems := items, cursorPos := c, scrollTop := Scroll(c, v.scrollTop, maxY - 5))
  }

  /** Enter: into the selected item when it is a directory with children, else no change. */
  function Opened(v: View): (r: View)
    requires ViewValid(v) && ViewDrawn(v)
    ensures ViewValid(r)
  {
    var n := |v.visibleItems|;
    if n > 0 && v.cursorPos < n && Selected(v.visibleItems, v.cursorPos).isDir
       && Selected(v.visibleItems, v.cursorPos).children != [] then
      var j := IndexOf(NodeAt(v.root, v.path).children, Selected(v.visibleItems, v.cursorPos));
      NodeAtChild(v.root, v.path, j);
      v.(path := v.path + [j], cursorPos := 0, scrollTop := 0)
    else v
  }

  /** Left or Backspace: to the parent, the cursor on the first raw position holding the node left. */
  function WentUp(v: View): (r: View)
    requires ViewValid(v)
    ensures ViewValid(r)
  {
    if v.path == [] then v
    else
      NodeAtParent(v.root, v.path);
      var up := v.path[..|v.path| - 1];
      var c := IndexOf(NodeAt(v.root, up).children, NodeAt(v.root, v.path));
      v.(path := up, cursorPos := c, scrollTop := Max(0, c - 5))
  }

  /** `d`: a confirmed, successful removal takes the selected item out of the current node. */
  function Deleted(v: View, confirmed: bool, removed: bool): (r: View)
    requires ViewValid(v) && ViewDrawn(v)
    ensures ViewValid(r)
  {
    var n := |v.visibleItems|;
    if n > 0 && v.cursorPos < n && confirmed && removed then
      var parent := WithoutChild(NodeAt(v.root, v.path), Selected(v.visibleItems, v.cursorPos));
      ReplaceAtFound(v.root, v.path, parent);
      v.(root := ReplaceAt(v.root, v.path, parent))
    else v
  }

  /** The effect of one key of `run`'s loop on a drawn state. */
  function Handled(v: View, k: Key): (r: View)
    requires ViewValid(v) && ViewDrawn(v)
    ensures ViewValid(r)
    ensures r.visibleItems == v.visibleItems
    ensures !k.DeleteKey? ==> r.root == v.root
    ensures !(k.Open? || k.Back?) ==> r.path == v.path
  {
    match k
    case Quit => v
    case Cursor(m) => v.(cursorPos := Moved(m, v.cursorPos, |v.visibleItems|))
    case Open => Opened(v)
    case Back => WentUp(v)
    case ToggleHiddenKey => v.(showHidden := !v.showHidden, cursorPos := 0, scrollTop := 0)
    case SortKey => v.(sortBy := NextSort(v.sortBy))
    case ReverseKey => v.(sortReverse := !v.sortReverse)
    case DeleteKey(confirmed, removed) => Deleted(v, confirmed, removed)
    case HelpKey => v
    case OtherKey => v
  }

  /** `run`'s loop over a sequence of keys: draw, handle the key, and stop after `q`. */
  function Replay(v: View, keys: seq<Key>, maxY: int): (r: View)
    requires ViewValid(v)
    ensures ViewValid(r)
    decreases |keys|
  {
    if keys == [] then v
    else
      var w := Handled(Redrawn(v, maxY), keys[0]);
      if keys[0].Quit? then w else Replay(w, keys[1..], maxY)
  }

  /** The loop ends at the first `q`: keys after it are never read. */
  lemma {:induction false} ReplayIgnoresAfterQuit(v: View, keys: seq<Key>, extra: seq<Key>, maxY: int)
    requires ViewValid(v)
    requires keys != [] && keys[|keys| - 1].Quit?
    ensures Replay(v, keys + extra, maxY) == Replay(v, keys, maxY)
    decreases |keys|
  {
    assert (keys + extra)[0] == keys[0];
    if !keys[0].Quit? {
      var w := Handled(Redrawn(v, maxY), keys[0]);
      assert (keys + extra)[1..] == keys[1..] + extra;
      ReplayIgnoresAfterQuit(w, keys[1..], extra, maxY);
    }
  }

  class DiskAnalyzerUI {
    var root: Node
    var path: seq<nat>
    var showHidden: bool
    var scrollTop: int
    var cursorPos: int
    var visibleItems: seq<Node>
    var sortBy: SortMode
    var sortReverse: bool

    ghost predicate Valid()
      reads this`root, this`path, this`cursorPos
    {
      ValidPath(root, path) && cursorPos >= -1
    }

    /** The fields as one value. */
    function State(): View
      reads this
    {
      View(root, path, showHidden, scrollTop, cursorPos, visibleItems, sortBy, sortReverse)
    }

    /** `current_node`. */
    function Current(): Node
      reads this`root, this`path
      requires ValidPath(root, path)
    {
      NodeAt(root, path)
    }

    /** `visible_items` holds the current node's children, as `draw` leaves it before every key. */
    ghost predicate Drawn()
      reads this`root, this`path, this`visibleItems
      requires ValidPath(root, path)
    {
      forall x :: x in visibleItems ==> x in Current().children
    }

    /** `visible_items` is what `get_visible_children` returns for the current state. */
    ghost predicate Fresh()
      reads this`root, this`path, this`visibleItems, this`showHidden, this`sortBy, this`sortReverse
      requires ValidPath(root, path)
    {
      visibleItems == VisibleChildren(Current(), showHidden, sortBy, sortReverse)
    }

    constructor(root: Node, showHidden: bool)
      ensures Valid()
      ensures this.root == root && path == [] && this.showHidden == showHidden
      ensures scrollTop == 0 && cursorPos == 0 && visibleItems == [] && sortBy == BySize && !sortReverse
    {
      this.root := root;
      path := [];
      this.showHidden := showHidden;
      scrollTop, cursorPos := 0, 0;
      visibleItems := [];
      sortBy, sortReverse := BySize, false;
    }

    /** The state `draw` leaves: fresh visible items, the cursor bounded, the window scrolled to it. */
    method Draw(maxY: int)
      requires Valid()
      modifies this`visibleItems, this`cursorPos, this`scrollTop
      ensures Valid() && Drawn() && Fresh()
      ensures cursorPos == ClampCursor(old(cursorPos), |visibleItems|)
      ensures scrollTop == Scroll(cursorPos, old(scrollTop), maxY - 5)
      ensures State() == Redrawn(old(State()), maxY)
    {
      RefreshVisible();
      if cursorPos >= |visibleItems| {
        cursorPos := Max(0, |visibleItems| - 1);
      }
      var contentHeight := maxY - 5;
      if cursorPos < scrollTop {
        scrollTop := cursorPos;
      } else if cursorPos >= scrollTop + contentHeight {
        scrollTop := cursorPos - contentHeight + 1;
      }
    }

    /** `self.visible_items = self.get_visible_children()`. */
    method RefreshVisible()
      requires ValidPath(root, path)
      modifies this`visibleItems
      ensures Fresh() && Drawn()
    {
      VisibleChildrenIn(Current(), showHidden, sortBy, sortReverse);
      visibleItems := VisibleChildren(Current(), showHidden, sortBy, sortReverse);
    }

    method MoveCursor(m: Move)
      requires Valid()
      modifies this`cursorPos
      ensures Valid()
      ensures cursorPos == Moved(m, old(cursorPos), |visibleItems|)
    {
      var n := |visibleItems|;
      match m
      case Up => cursorPos := Max(0, cursorPos - 1);
      case Down => cursorPos := Min(n - 1, cursorPos + 1);
      case PageUp => cursorPos := Max(0, cursorPos - 10);
      case PageDown => cursorPos := Min(n - 1, cursorPos + 10);
      case Home => cursorPos := 0;
      case End => cursorPos := n - 1;
    }

    /** Enter: descends into the selected item only when it is a directory with children. */
    method OpenSelected()
      requires Valid() && Drawn()
      modifies this`path, this`cursorPos, this`scrollTop
      ensures Valid()
      ensures var n := |visibleItems|;
        if n > 0 && old(cursorPos) < n && Selected(visibleItems, old(cursorPos)).isDir
           && Selected(visibleItems, old(cursorPos)).children != [] then
          && path == old(path) + [IndexOf(old(Current()).children, Selected(visibleItems, old(cursorPos)))]
          && Current() == Selected(visibleItems, old(cursorPos))
          && cursorPos == 0 && scrollTop == 0
        else
          path == old(path) && cursorPos == old(cursorPos) && scrollTop == old(scrollTop)
      ensures State() == Opened(old(State()))
    {
      if visibleItems != [] && cursorPos < |visibleItems| {
        var selected := Selected(visibleItems, cursorPos);
        if selected.isDir && selected.children != [] {
          var j := IndexOf(Current().children, selected);
          NodeAtChild(root, path, j);
          path := path + [j];
          cursorPos, scrollTop := 0, 0;
        }
      }
    }

    /**
     * Left or Backspace: goes to the parent, with the cursor on the first
     * position of the parent's (unsorted, unfiltered) children holding the
     * node left.
     */
    method GoUp()
      requires Valid()
      modifies this`path, this`cursorPos, this`scrollTop
      ensures Valid()
      ensures old(path) == [] ==> path == old(path) && cursorPos == old(cursorPos) && scrollTop == old(scrollTop)
      ensures old(path) != [] ==>
        && path == old(path)[..|old(path)| - 1]
        && 0 <= cursorPos <= old(path)[|old(path)| - 1] && cursorPos < |Current().children|
        && Current().children[cursorPos] == old(Current())
        && (forall j :: 0 <= j < cursorPos ==> Current().children[j] != old(Current()))
        && scrollTop == Max(0, cursorPos - 5)
      ensures State() == WentUp(old(State()))
    {
      if path != [] {
        NodeAtParent(root, path);
        var up := path[..|path| - 1];
        var child := Current();
        cursorPos := IndexOf(NodeAt(root, up).children, child);
        path := up;
        scrollTop := Max(0, cursorPos - 5);
      }
    }

    /** `h`: shows or hides dot-names and goes back to the top of the list. */
    method ToggleHidden()
      requires Valid()
      modifies this`showHidden, this`cursorPos, this`scrollTop
      ensures Valid()
      ensures showHidden == !old(showHidden) && cursorPos == 0 && scrollTop == 0
    {
      showHidden := !showHidden;
      cursorPos, scrollTop := 0, 0;
    }

    method CycleSort()
      modifies this`sortBy
      ensures sortBy == NextSort(old(sortBy))
    {
      var modes := [BySize, ByName, ByCount];
      var idx := if sortBy == BySize then 0 else if sortBy == ByName then 1 else 2;
      sortBy := modes[(idx + 1) % |modes|];
    }

    method ToggleReverse()
      modifies this`sortReverse
      ensures sortReverse == !old(sortReverse)
    {
      sortReverse := !sortReverse;
    }

    /**
     * `d` followed by the confirmation and `_delete_item`: when the removal
     * succeeds, the item leaves the current node, which loses its size;
     * nothing above the current node changes.
     */
    method DeleteSelected(confirmed: bool, removed: bool)
      requires Valid() && Drawn()
      modifies this`root
      ensures Valid()
      ensures var n := |visibleItems|;
        if n > 0 && cursorPos < n && confirmed && removed then
          && Selected(visibleItems, cursorPos) in old(Current()).children
          && root == ReplaceAt(old(root), path, WithoutChild(old(Current()), Selected(visibleItems, cursorPos)))
          && Current() == WithoutChild(old(Current()), Selected(visibleItems, cursorPos))
        else root == old(root)
      ensures State() == Deleted(old(State()), confirmed, removed)
    {
      if visibleItems != [] && cursorPos < |visibleItems| {
        var selected := Selected(visibleItems, cursorPos);
        if confirmed && removed {
          var parent := WithoutChild(Current(), selected);
          ReplaceAtFound(root, path, parent);
          root := ReplaceAt(root, path, parent);
        }
      }
    }

    /** One key of `run`'s loop; `q` ends the loop. */
    method HandleKey(k: Key) returns (quit: bool)
      requires Valid() && Drawn()
      modifies this
      ensures Valid()
      ensures quit <==> k.Quit?
      ensures visibleItems == old(visibleItems)
      ensures k.Quit? || k.HelpKey? || k.OtherKey? ==> unchanged(this)
      ensures k.Cursor? ==> cursorPos == Moved(k.m, old(cursorPos), |visibleItems|)
      ensures k.SortKey? ==> sortBy == NextSort(old(sortBy))
      ensures k.ReverseKey? ==> sortReverse == !old(sortReverse)
      ensures State() == Handled(old(State()), k)
    {
      quit := false;
      match k
      case Quit => quit := true;
      case Cursor(m) => MoveCursor(m);
      case Open => OpenSelected();
      case Back => GoUp();
      case ToggleHiddenKey => ToggleHidden();
      case SortKey => CycleSort();
      case ReverseKey => ToggleReverse();
      case DeleteKey(confirmed, removed) => DeleteSelected(confirmed, removed);
      case HelpKey =>
      case OtherKey =>
    }

    /** One turn of `run`'s loop: the screen is drawn, then the key read is handled. */
    method Step(k: Key, maxY: int) returns (quit: bool)
      requires Valid()
      modifies this
      ensures Valid()
      ensures quit <==> k.Quit?
      ensures State() == Handled(Redrawn(old(State()), maxY), k)
    {
      Draw(maxY);
      quit := HandleKey(k);
    }

    /** `run`: draws, then handles the next key, until `q`; returns how many keys were read. */
    method Run(keys: seq<Key>, maxY: int) returns (read: nat)
      requires Valid()
      modifies this
      ensures Valid()
      ensures read <= |keys|
      ensures forall j :: 0 <= j < read - 1 ==> !keys[j].Quit?
      ensures read < |keys| ==> read > 0 && keys[read - 1].Quit?
      ensures State() == Replay(old(State()), keys, maxY)
    {
      read := 0;
      while read < |keys|
        invariant Valid()
        invariant read <= |keys|
        invariant forall j :: 0 <= j < read ==> !keys[j].Quit?
        invariant Replay(old(State()), keys, maxY) == Replay(State(), keys[read..], maxY)
      {
        var quit := Step(keys[read], maxY);
        assert keys[read..][1..] == keys[read + 1..];
        read := read + 1;
        if quit {
          return;
        }
      }
    }
  }
}
