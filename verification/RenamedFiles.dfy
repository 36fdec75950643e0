/** A rename seen through file contents: what moves, what stays, and exactly when bytes are kept. */
module RenamedFiles {
  import opened Machine
  import opened Paths
  import opened Extents
  import opened Overlay
  import opened Renames
  import opened Lookup
  import opened MergedView
  import opened RenamedView
  import opened LowerRenames
  import opened FileBytes
  import opened FileRuns

  /** The bytes of a file from its node (or none) and the lower path its holes read. */
  function DataAt(tree: Lower, store: Store, node: Option<Node>, at: Path, source: Path): seq<Byte> {
    match node
    case None => RawBytes(tree, at)
    case Some(n) => NodeBytes(n, if n.fallthrough then RawBytes(tree, source) else [], store)
  }

  lemma DataIs(s: State, tree: Lower, store: Store, rel: Path)
    requires Sourced(Get(s.nodes, Some(rel)))
    ensures var node := Get(s.nodes, Some(rel));
            FileData(s, tree, store, rel) == DataAt(tree, store, node, LowerLocation(s, rel), SourceBefore(s, node))
  {
    hide LowerLocation, Canonical;
    if rel in s.nodes {
      if s.nodes[rel].fallthrough { EdgeSlashes(s.nodes[rel].lowerRel); }
    } else {
      UntouchedBytes(FileNode(s, rel), LowerBytes(s, tree, rel), store);
    }
  }

  /** A file with no overlay node shows its lower bytes. */
  lemma UntouchedBytes(n: Node, base: seq<Byte>, store: Store)
    requires n.size < 0 && n.extents == []
    ensures NodeBytes(n, base, store) == base
  {
  }

  /** What every file holds after a rename. */
  lemma RenamedData(s: State, tree: Lower, store: Store, from: Path, to: Path, fromLower: bool, x: Path)
    requires Renamable(s, from, to) && Proper(x, from, to) && Sourced(Get(s.nodes, Shows(from, to, x)))
    ensures var node := Get(s.nodes, Shows(from, to, x));
            FileData(DoRename(s, from, to, fromLower), tree, store, x) ==
            DataAt(tree, store, node, LocationAfter(s, from, to, x), SourceAfter(s, from, to, node))
  {
    hide Renamable, Proper, DoRename, FileData, DataAt, LowerLocation, LocationAfter, Shows;
    var r, node := DoRename(s, from, to, fromLower), Get(s.nodes, Shows(from, to, x));
    MapsAfter(s, from, to, fromLower, x);
    DataIs(r, tree, store, x);
    LocationAfterIs(s, from, to, fromLower, x);
    if node.Some? && node.value.fallthrough {
      CanonicalIsProper(node.value.lowerRel, from, to);
      LocationAfterIs(s, from, to, fromLower, node.value.lowerRel);
    }
  }

  // --------------------------------------------------------- when bytes are kept

  /** Over either base the file has one size and shows the same byte in every hole below it. */
  ghost predicate SameHoles(n: Node, a: seq<Byte>, b: seq<Byte>) {
    && SizeOf(n, a) == SizeOf(n, b)
    && forall i :: 0 <= i < SizeOf(n, a) && At(n.extents, i).None? ==> BaseByte(a, i) == BaseByte(b, i)
  }

  lemma SameHolesIff(n: Node, a: seq<Byte>, b: seq<Byte>, store: Store)
    requires 0 <= SizeOf(n, a) && 0 <= SizeOf(n, b)
    ensures NodeBytes(n, a, store) == NodeBytes(n, b, store) <==> SameHoles(n, a, b)
  {
    hide SizeOf, At;
    var f, g := NodeBytes(n, a, store), NodeBytes(n, b, store);
    if f == g {
      assert SizeOf(n, a) == |f| == |g| == SizeOf(n, b);
      forall i | 0 <= i < SizeOf(n, a) && At(n.extents, i).None? ensures BaseByte(a, i) == BaseByte(b, i) {
        assert f[i] == g[i];
      }
    }
  }

  lemma SizeNatural(n: Node, base: seq<Byte>)
    ensures 0 <= SizeOf(n, base)
  {
  }

  /** The contents of two places of one node (or none) agree. */
  ghost predicate SameContents(tree: Lower, node: Option<Node>, a1: Path, s1: Path, a2: Path, s2: Path) {
    match node
    case None => RawBytes(tree, a1) == RawBytes(tree, a2)
    case Some(n) => n.fallthrough ==> SameHoles(n, RawBytes(tree, s1), RawBytes(tree, s2))
  }

  lemma SameContentsIff(tree: Lower, store: Store, node: Option<Node>, a1: Path, s1: Path, a2: Path, s2: Path)
    ensures DataAt(tree, store, node, a1, s1) == DataAt(tree, store, node, a2, s2) <==>
            SameContents(tree, node, a1, s1, a2, s2)
  {
    hide SameHoles, NodeBytes;
    if node.Some? && node.value.fallthrough {
      SizeNatural(node.value, RawBytes(tree, s1));
      SizeNatural(node.value, RawBytes(tree, s2));
      SameHolesIff(node.value, RawBytes(tree, s1), RawBytes(tree, s2), store);
    }
  }

  /**
   A file of any renamed tree keeps its bytes exactly when the lower bytes at its old and its new
   location agree, or for a written file, when they agree at the source of its holes.
   */
  lemma MovedBytesKeptIff(s: State, tree: Lower, store: Store, from: Path, to: Path, fromLower: bool, p: Path)
    requires Renamable(s, from, to) && AtOrBelow(p, from) && Canonical(p) && Sourced(Get(s.nodes, Some(p)))
    ensures var t, node := Rebase(p, from, to), Get(s.nodes, Some(p));
            FileData(DoRename(s, from, to, fromLower), tree, store, t) == FileData(s, tree, store, p) <==>
            SameContents(tree, node, LocationAfter(s, from, to, t), SourceAfter(s, from, to, node),
              LowerLocation(s, p), SourceBefore(s, node))
  {
    hide DoRename, FileData, DataAt, LowerLocation, LocationAfter, AtOrBelow, CleanKeys, Canonical, Rebase,
      Incomparable, SameContents;
    var t, node := Rebase(p, from, to), Get(s.nodes, Some(p));
    ShowsMoved(p, from, to);
    RenamedData(s, tree, store, from, to, fromLower, t);
    DataIs(s, tree, store, p);
    SameContentsIff(tree, store, node, LocationAfter(s, from, to, t), SourceAfter(s, from, to, node),
      LowerLocation(s, p), SourceBefore(s, node));
  }

  /** A file outside both trees keeps its bytes exactly when its holes, if it has any, show the same. */
  lemma OtherBytesKeptIff(s: State, tree: Lower, store: Store, from: Path, to: Path, fromLower: bool, x: Path)
    requires Renamable(s, from, to) && Elsewhere(x, from, to) && Sourced(Get(s.nodes, Some(x)))
    ensures FileData(DoRename(s, from, to, fromLower), tree, store, x) == FileData(s, tree, store, x) <==>
            (x in s.nodes && s.nodes[x].fallthrough ==>
               var n := s.nodes[x];
               SameHoles(n, RawBytes(tree, LocationAfter(s, from, to, n.lowerRel)), LowerBytes(s, tree, n.lowerRel)))
  {
    hide DoRename, FileData, DataAt, LowerPath, AtOrBelow, CleanKeys, Canonical, Incomparable, SameHoles;
    var node := Get(s.nodes, Some(x));
    RootStays(s);
    if node.Some? && node.value.fallthrough { EdgeSlashes(node.value.lowerRel); }
    RenamedData(s, tree, store, from, to, fromLower, x);
    DataIs(s, tree, store, x);
    SameContentsIff(tree, store, node, LocationAfter(s, from, to, x), SourceAfter(s, from, to, node),
      LowerLocation(s, x), SourceBefore(s, node));
  }

  // ------------------------------------------------------- lower-backed trees

  /** Every file of a renamed lower-backed tree holds at its new place the bytes it held at its old one. */
  lemma RenamedBytesMove(s: State, tree: Lower, store: Store, from: Path, to: Path, p: Path)
    requires PurelyLower(s, from, to) && AtOrBelow(p, from) && Canonical(p)
    ensures FileData(Renamed(s, from, to), tree, store, Rebase(p, from, to)) == FileData(s, tree, store, p)
  {
    hide PurelyLower, Canonical, DoRename, Rebase, LowerLocation, LocationAfter, AtOrBelow, FileData, Renamable;
    PurelyLowerPaths(s, from, to);
    NoNodes(s, from, to, p);
    LocationMoves(s, from, to, p);
    MovedBytesKeptIff(s, tree, store, from, to, true, p);
  }

  /** No hole of the file reads through to a lower path under the destination. */
  predicate HolesElsewhere(s: State, to: Path, x: Path) {
    x in s.nodes && s.nodes[x].fallthrough ==> !AtOrBelow(FallthroughSource(x, s.nodes[x]), to)
  }

  /** Every other file keeps its bytes, unless its holes read from under the destination. */
  lemma OtherBytesKept(s: State, tree: Lower, store: Store, from: Path, to: Path, x: Path)
    requires PurelyLower(s, from, to) && Elsewhere(x, from, to) && HolesElsewhere(s, to, x)
    ensures FileData(Renamed(s, from, to), tree, store, x) == FileData(s, tree, store, x)
  {
    hide PurelyLower, DoRename, LowerLocation, AtOrBelow, NodeBytes, Renamable;
    PurelyLowerPaths(s, from, to);
    MapsKept(s, from, to, x);
    LocationKept(s, from, to, x);
    if x in s.nodes && s.nodes[x].fallthrough {
      LocationKept(s, from, to, FallthroughSource(x, s.nodes[x]));
    }
  }

  /** The other files' new contents: their holes now show the renamed tree's lower bytes. */
  lemma ExposedBytesShift(s: State, tree: Lower, store: Store, from: Path, to: Path, x: Path)
    requires PurelyLower(s, from, to) && Elsewhere(x, from, to) && SoundNodes(s.nodes)
    requires x in s.nodes && s.nodes[x].fallthrough && AtOrBelow(s.nodes[x].lowerRel, to)
    ensures FileData(Renamed(s, from, to), tree, store, x) ==
            NodeBytes(s.nodes[x], RawBytes(tree, Rebase(s.nodes[x].lowerRel, to, from)), store)
  {
    SoundIsSourced(s, Some(x));
    hide DoRename, LowerPath, AtOrBelow, NodeBytes, Rebase, Canonical, CleanKeys, FileData, SubtreePresent, Hidden,
      SoundNodes, Incomparable;
    RenamedData(s, tree, store, from, to, true, x);
  }
}
