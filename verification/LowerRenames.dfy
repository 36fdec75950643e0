/**
 Renaming a purely lower-backed tree: the merged view moves with it, the old
 place becomes absent, every other path keeps its entry.
 */
module LowerRenames {
  import opened Machine
  import opened Paths
  import opened Overlay
  import opened Renames
  import opened Lookup
  import opened MergedView
  import opened RenamedView

  /** A visible source with no overlay node or redirect at, below or (redirects) above it. */
  ghost predicate PurelyLower(s: State, from: Path, to: Path) {
    && CleanKeys(s) && Canonical(from) && Canonical(to) && Incomparable(from, to)
    && !SubtreePresent(s, from) && !Hidden(s.whiteouts, from)
    && (forall q :: q in s.redirects ==> !AtOrBelow(from, q))
    && (forall q :: q in s.whiteouts ==> !Below(to, q))
  }

  function Renamed(s: State, from: Path, to: Path): State {
    DoRename(s, from, to, true)
  }

  // ------------------------------------------------- the moved tree's parts

  lemma NoNodes(s: State, from: Path, to: Path, p: Path)
    requires PurelyLower(s, from, to) && AtOrBelow(p, from) && Canonical(p)
    ensures p !in s.nodes && p !in s.redirects && Get(s.nodes, Some(p)) == None
    ensures Get(Renamed(s, from, to).nodes, Some(Rebase(p, from, to))) == None
  {
    ShowsMoved(p, from, to);
    MapsAfter(s, from, to, true, Rebase(p, from, to));
  }

  lemma HiddenMoves(s: State, from: Path, to: Path, p: Path)
    requires PurelyLower(s, from, to) && AtOrBelow(p, from) && Canonical(p)
    ensures CoveredInside(s.whiteouts, from, p) || CoveredAbove(s.whiteouts, to) <==> Hidden(s.whiteouts, p)
    ensures Hidden(Renamed(s, from, to).whiteouts, Rebase(p, from, to)) <==> Hidden(s.whiteouts, p)
  {
    ShowsMoved(p, from, to);
    HiddenInDestination(s, from, to, true, Rebase(p, from, to));
    if Hidden(s.whiteouts, p) {
      var q := HiddenBy(s.whiteouts, p);
      AboveOrInside(p, from, q);
      assert !AtOrBelow(from, q);
      CoversInside(s.whiteouts, from, p, q);
    }
    hide DoRename, Canonical, Rebase, CleanKeys, SubtreePresent;
  }

  lemma LocationMoves(s: State, from: Path, to: Path, p: Path)
    requires PurelyLower(s, from, to) && AtOrBelow(p, from) && Canonical(p)
    ensures LocationAfter(s, from, to, Rebase(p, from, to)) == p && LowerLocation(s, p) == p
    ensures LowerLocation(Renamed(s, from, to), Rebase(p, from, to)) == p
  {
    EdgeSlashes(p);
    ShowsMoved(p, from, to);
    LocationAfterIs(s, from, to, true, Rebase(p, from, to));
    LowerPathNone(s.redirects, p) by {
      forall q | q in s.redirects ensures !AtOrBelow(p, q) {
        if AtOrBelow(p, q) { AboveOrInside(p, from, q); }
      }
    }
    hide DoRename, Canonical, Rebase, CleanKeys, LowerPath, Hidden;
  }

  // ------------------------------------------------------------- the theorem

  /** Every path of the renamed tree resolves to the very entry it had at its old place. */
  lemma RenamedEntryMoves(s: State, tree: Lower, from: Path, to: Path, p: Path)
    requires PurelyLower(s, from, to) && AtOrBelow(p, from) && Canonical(p)
    ensures Resolve(Renamed(s, from, to), tree, Rebase(p, from, to)) == Resolve(s, tree, p)
  {
    hide Canonical, DoRename, Rebase, LowerLocation, LocationAfter, Hidden, AtOrBelow, CleanKeys, Resolve,
      CoveredInside, CoveredAbove, SubtreePresent, Incomparable;
    NoNodes(s, from, to, p);
    HiddenMoves(s, from, to, p);
    LocationMoves(s, from, to, p);
    MovedEntryKeptIff(s, tree, from, to, true, p);
  }

  /** Nothing is left at the old place. */
  lemma OldPlaceAbsent(s: State, tree: Lower, from: Path, to: Path, p: Path)
    requires PurelyLower(s, from, to) && AtOrBelow(p, from) && Canonical(p)
    ensures Resolve(Renamed(s, from, to), tree, p) == Ok(ABSENT)
  {
    hide Canonical, DoRename, Rebase, LowerLocation, LocationAfter, AtOrBelow, CleanKeys, Resolve, SubtreePresent;
    NothingShown(p, from, to);
    RenamedResolve(s, tree, from, to, true, p);
  }

  lemma NothingShown(p: Path, from: Path, to: Path)
    requires AtOrBelow(p, from) && Incomparable(from, to) && Canonical(p)
    ensures Shows(from, to, p) == None && !AtOrBelow(p, to) && Proper(p, from, to)
  {
    SubtreesDisjoint(p, from, to);
  }

  // ------------------------------------------------------------------ listing

  lemma NoneBelow(keys: set<Path>, dir: Path)
    requires dir != "" && forall k :: k in keys ==> !Below(k, dir)
    ensures ChildNames(keys, dir) == {}
  {
  }

  lemma RebaseJoin(p: Path, c: string, from: Path, to: Path)
    requires AtOrBelow(p, from) && Canonical(p) && p != "" && to != "" && c != ""
    ensures Rebase(Join(p, c), from, to) == Join(Rebase(p, from, to), c)
    ensures Below(Join(p, c), from) && Below(Join(p, c), p)
  {
    MatchRejoins(p, from);
    var rest := PrefixMatch(p, from).value;
    var child := p + "/" + c;
    assert child[..|p|] == p && child[|p|] == '/';
    if p == from {
      assert child == ToPath(from, c);
      ToPathMatches(from, c);
    } else {
      assert child == ToPath(from, rest + "/" + c);
      ToPathMatches(from, rest + "/" + c);
      assert to + "/" + (rest + "/" + c) == to + "/" + rest + "/" + c;
    }
  }

  lemma ChildCanonical(p: Path, c: string)
    requires Canonical(p) && p != ""
    ensures Canonical(Join(p, c)) <==> Canonical(c)
  {
    CanonicalJoin(p, c);
  }

  lemma WhiteoutsClean(s: State, from: Path, to: Path)
    requires Renamable(s, from, to)
    ensures AllClean(s.whiteouts) && AllClean(DoRename(s, from, to, true).whiteouts)
  {
    RenameClean(s, from, to, true);
  }

  lemma WhiteoutChildMoves(s: State, from: Path, to: Path, p: Path, c: string)
    requires PurelyLower(s, from, to) && AtOrBelow(p, from) && Canonical(p)
    requires c != "" && '/' !in c
    ensures Join(Rebase(p, from, to), c) in Renamed(s, from, to).whiteouts <==> Join(p, c) in s.whiteouts
  {
    hide Canonical, DoRename, Rebase, AtOrBelow, Hidden, SubtreePresent, Join, CleanKeys, Incomparable;
    var t := Rebase(p, from, to);
    ShowsMoved(p, from, to);
    EdgeSlashes(p);
    EdgeSlashes(t);
    EdgeSlashes(from);
    EdgeSlashes(to);
    RebaseJoin(t, c, to, from);
    WhiteoutsClean(s, from, to);
    ChildCanonical(p, c);
    ChildCanonical(t, c);
    if Canonical(c) {
      BelowIsAtOrBelow(Join(t, c), to);
      BelowIsNot(Join(t, c), to);
      CanonicalIsProper(Join(t, c), from, to);
      MapsAfter(s, from, to, true, Join(t, c));
    }
  }

  lemma ChildNamesPlain(keys: set<Path>, dir: Path, c: string)
    requires c in ChildNames(keys, dir)
    ensures c != "" && '/' !in c
  {
  }

  /** Below a path of the moved tree there is no node and no redirect, before or after. */
  lemma NothingBelow(s: State, from: Path, to: Path, p: Path, k: Path)
    requires PurelyLower(s, from, to) && AtOrBelow(p, from) && Canonical(p)
    ensures k in s.nodes || k in s.redirects ==> !Below(k, p)
    ensures k in Renamed(s, from, to).nodes || k in Renamed(s, from, to).redirects ==> !Below(k, Rebase(p, from, to))
  {
    var t := Rebase(p, from, to);
    ShowsMoved(p, from, to);
    if Below(k, p) { AtOrBelowTransitive(k, p, from); }
    if Below(k, t) {
      RedirectMaps(s, from, to, true);
      AtOrBelowTransitive(k, t, to);
      if k == to { AtOrBelowTransitive(to, t, to); }
    }
    hide Canonical, DoRename, Hidden;
  }

  /** Every directory of the renamed tree lists what it listed at its old place. */
  lemma RenamedListingMoves(s: State, tree: Lower, from: Path, to: Path, p: Path, names: seq<string>, c: string)
    requires PurelyLower(s, from, to) && AtOrBelow(p, from) && Canonical(p)
    ensures LowerNames(Renamed(s, from, to), tree, Rebase(p, from, to)) == LowerNames(s, tree, p)
    ensures Listed(Renamed(s, from, to), Rebase(p, from, to), names, c) <==> Listed(s, p, names, c)
  {
    hide PurelyLower, Canonical, Renamed, Rebase, LowerLocation, Hidden, AtOrBelow, ChildNames, Join, Below;
    var n, t := Renamed(s, from, to), Rebase(p, from, to);
    PurelyLowerPaths(s, from, to);
    ShowsMoved(p, from, to);
    EdgeSlashes(p);
    EdgeSlashes(t);
    HiddenMoves(s, from, to, p);
    LocationMoves(s, from, to, p);
    forall k ensures (k in s.nodes.Keys || k in s.redirects.Keys ==> !Below(k, p))
                  && (k in n.nodes.Keys || k in n.redirects.Keys ==> !Below(k, t)) {
      NothingBelow(s, from, to, p, k);
    }
    NoneBelow(s.nodes.Keys, p);
    NoneBelow(s.redirects.Keys, p);
    NoneBelow(n.nodes.Keys, t);
    NoneBelow(n.redirects.Keys, t);
    if c in ChildNames(s.whiteouts, p) { ChildNamesPlain(s.whiteouts, p, c); }
    if c in ChildNames(n.whiteouts, t) { ChildNamesPlain(n.whiteouts, t, c); }
    if c != "" && '/' !in c {
      WhiteoutChildMoves(s, from, to, p, c);
      IsChild(s.whiteouts, p, c);
      IsChild(n.whiteouts, t, c);
    }
  }

  lemma PurelyLowerPaths(s: State, from: Path, to: Path)
    requires PurelyLower(s, from, to)
    ensures Canonical(from) && Canonical(to) && Renamable(s, from, to)
  {
  }

  // -------------------------------------------------------------- other paths

  /** The path is neither in the renamed tree nor in its destination. */
  predicate Elsewhere(x: Path, from: Path, to: Path) {
    !AtOrBelow(x, from) && !AtOrBelow(x, to)
  }

  lemma LocationKept(s: State, from: Path, to: Path, x: Path)
    requires PurelyLower(s, from, to) && !AtOrBelow(x, to)
    ensures LowerLocation(Renamed(s, from, to), x) == LowerLocation(s, x)
  {
    RedirectMaps(s, from, to, true);
    hide Canonical, Renamed, LowerPath, Hidden, CleanKeys, SubtreePresent;
    var r := Renamed(s, from, to).redirects;
    LowerPathFrame(r, s.redirects, x) by {
      forall q | AtOrBelow(x, q)
        ensures (q in r <==> q in s.redirects) && (q in r ==> r[q] == s.redirects[q])
      {
        if AtOrBelow(q, to) { AtOrBelowTransitive(x, q, to); }
      }
    }
  }

  /** The maps answer as before at a path outside both trees. */
  lemma MapsKept(s: State, from: Path, to: Path, x: Path)
    requires Renamable(s, from, to) && Elsewhere(x, from, to)
    ensures var n := Renamed(s, from, to);
            && Get(n.nodes, Some(x)) == Get(s.nodes, Some(x))
            && Get(n.overrides, Some(x)) == Get(s.overrides, Some(x))
            && (x in n.redirects <==> x in s.redirects)
            && (x in n.whiteouts <==> x in s.whiteouts)
  {
    SelfBelow(to);
    MapsAfter(s, from, to, true, x);
    hide DoRename, SubtreePresent, Canonical;
  }

  /** The size a fallthrough node derives from the lower tree is read elsewhere too. */
  predicate SourceElsewhere(s: State, to: Path, x: Path) {
    x in s.nodes && s.nodes[x].fallthrough && s.nodes[x].size < 0 ==>
      !AtOrBelow(FallthroughSource(x, s.nodes[x]), to)
  }

  /** Every other path keeps its entry, unless it derives its size from a lower path under the destination. */
  lemma OtherEntriesKept(s: State, tree: Lower, from: Path, to: Path, x: Path)
    requires PurelyLower(s, from, to) && Elsewhere(x, from, to) && SourceElsewhere(s, to, x)
    ensures Resolve(Renamed(s, from, to), tree, x) == Resolve(s, tree, x)
  {
    hide PurelyLower, DoRename, LowerLocation, Hidden, AtOrBelow, Renamable, Canonical, Resolve, FallthroughSource;
    PurelyLowerPaths(s, from, to);
    MapsKept(s, from, to, x);
    HiddenElsewhere(s, from, to, true, x);
    LocationKept(s, from, to, x);
    if x in s.nodes && s.nodes[x].fallthrough && s.nodes[x].size < 0 {
      LocationKept(s, from, to, FallthroughSource(x, s.nodes[x]));
    }
    ResolveFrame(s, Renamed(s, from, to), tree, x);
  }

  /** A directory outside both trees reads the same lower names, and lists the same children outside both trees. */
  lemma OtherListingKept(s: State, tree: Lower, from: Path, to: Path, dir: Path, names: seq<string>, c: string)
    requires PurelyLower(s, from, to) && Elsewhere(dir, from, to)
    ensures LowerNames(Renamed(s, from, to), tree, dir) == LowerNames(s, tree, dir)
    ensures IsName(c) && Elsewhere(Join(dir, c), from, to) ==>
      (Listed(Renamed(s, from, to), dir, names, c) <==> Listed(s, dir, names, c))
  {
    hide PurelyLower, Canonical, DoRename, LowerLocation, Hidden, Join, AtOrBelow, Renamable, Listed, IsName;
    PurelyLowerPaths(s, from, to);
    HiddenElsewhere(s, from, to, true, dir);
    LocationKept(s, from, to, dir);
    if IsName(c) && Elsewhere(Join(dir, c), from, to) {
      MapsKept(s, from, to, Join(dir, c));
      ListedFrame(s, Renamed(s, from, to), dir, names, c);
    }
  }

  /** A child is listed or not by what the maps hold at its path. */
  lemma ListedFrame(s: State, r: State, dir: Path, names: seq<string>, c: string)
    requires IsName(c)
    requires var x := Join(dir, c);
             && Get(r.nodes, Some(x)) == Get(s.nodes, Some(x))
             && (x in r.redirects <==> x in s.redirects) && (x in r.whiteouts <==> x in s.whiteouts)
    ensures Listed(r, dir, names, c) <==> Listed(s, dir, names, c)
  {
    hide ChildNames, Join;
    NameIsPlain(c);
    IsChild(s.nodes.Keys, dir, c);
    IsChild(r.nodes.Keys, dir, c);
    IsChild(s.redirects.Keys, dir, c);
    IsChild(r.redirects.Keys, dir, c);
    IsChild(s.whiteouts, dir, c);
    IsChild(r.whiteouts, dir, c);
  }

  lemma NameIsPlain(c: string)
    requires IsName(c)
    ensures c != "" && '/' !in c
  {
  }
}
