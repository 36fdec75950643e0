/**
 What any rename does to the merged view, at every path: the entry after it as a function of the
 overlay before it, with no assumption on what lives at, below or above either name.
 */
module RenamedView {
  import opened Machine
  import opened Paths
  import opened Overlay
  import opened Renames
  import opened Lookup
  import opened MergedView

  /** Two names neither of which is the other or lies below it, over a state with canonical keys. */
  ghost predicate Renamable(s: State, from: Path, to: Path) {
    CleanKeys(s) && Canonical(from) && Canonical(to) && Incomparable(from, to)
  }

  // ----------------------------------------------------------- the four maps

  /** The path whose recorded node and override x shows after the rename. */
  function Shows(from: Path, to: Path, x: Path): Option<Path> {
    if AtOrBelow(x, to) then Some(Rebase(x, to, from))
    else if AtOrBelow(x, from) then None
    else Some(x)
  }

  predicate WhiteoutAfter(s: State, from: Path, to: Path, fromLower: bool, q: Path) {
    if AtOrBelow(q, to) then q != to && Rebase(q, to, from) in s.whiteouts
    else if AtOrBelow(q, from) then q == from && (fromLower || from in s.whiteouts)
    else q in s.whiteouts
  }

  function RedirectAfter(s: State, from: Path, to: Path, q: Path): Option<Path> {
    if SubtreePresent(s, from) then Get(s.redirects, Shows(from, to, q))
    else if q == to then Some(from)
    else if AtOrBelow(q, to) then None
    else Get(s.redirects, Some(q))
  }

  /** All four maps after a rename, overlay move or redirect, path by path. */
  lemma MapsAfter(s: State, from: Path, to: Path, fromLower: bool, q: Path)
    requires Renamable(s, from, to) && Proper(q, from, to)
    ensures var r := DoRename(s, from, to, fromLower);
            && Get(r.nodes, Some(q)) == Get(s.nodes, Shows(from, to, q))
            && Get(r.overrides, Some(q)) == Get(s.overrides, Shows(from, to, q))
            && Get(r.redirects, Some(q)) == RedirectAfter(s, from, to, q)
            && (q in r.whiteouts <==> WhiteoutAfter(s, from, to, fromLower, q))
  {
    if SubtreePresent(s, from) {
      hide Canonical, CleanKeys, SubtreePresent, Rebase, AtOrBelow, DoRename;
      RenamePointwise(s, from, to, fromLower, q);
      SubtreesDisjoint(q, from, to);
      SelfBelow(from);
    } else {
      RedirectPointwise(s, from, to, fromLower, q);
    }
  }

  lemma RedirectPointwise(s: State, from: Path, to: Path, fromLower: bool, q: Path)
    requires Renamable(s, from, to) && Proper(q, from, to) && !SubtreePresent(s, from)
    ensures var r := DoRename(s, from, to, fromLower);
            && Get(r.nodes, Some(q)) == Get(s.nodes, Shows(from, to, q))
            && Get(r.overrides, Some(q)) == Get(s.overrides, Shows(from, to, q))
            && Get(r.redirects, Some(q)) == RedirectAfter(s, from, to, q)
            && (q in r.whiteouts <==> WhiteoutAfter(s, from, to, fromLower, q))
  {
    hide Canonical, CleanKeys, SubtreePresent, Rebase, Moved, MovedSet, DoRename, Proper;
    RedirectMaps(s, from, to, fromLower);
    SubtreesDisjoint(q, from, to);
    RedirectNodes(s, from, to, q);
    KeysClean(s);
    var ps := if fromLower then s.whiteouts + {from} else s.whiteouts;
    MovedPoint(s.overrides, from, to, q);
    MovedSetPoint(ps, from, to, q);
    SelfBelow(from);
    RebaseOnto(q, from, to);
  }

  /** Re-basing a path of the destination gives the source exactly at its root. */
  lemma RebaseOnto(q: Path, from: Path, to: Path)
    requires Proper(q, from, to)
    ensures AtOrBelow(q, to) ==> AtOrBelow(Rebase(q, to, from), from) && (Rebase(q, to, from) == from <==> q == to)
  {
    if AtOrBelow(q, to) { RebaseBack(q, to, from); }
  }

  lemma RedirectMaps(s: State, from: Path, to: Path, fromLower: bool)
    requires Incomparable(from, to) && !SubtreePresent(s, from)
    ensures var r := DoRename(s, from, to, fromLower);
            && r.nodes == Pruned(s.nodes, to) && r.redirects == Pruned(s.redirects, to)[to := from]
            && r.overrides == Moved(Pruned(s.overrides, to), from, to)
            && r.whiteouts ==
               MovedSet(PrunedSet(if fromLower then s.whiteouts + {from} else s.whiteouts, to), from, to)
  {
    assert from != to && !AtOrBelow(from, to);
    PresentAfterClearing(s, from, to);
    assert PrunedSet(s.whiteouts, to) + {from} == PrunedSet(s.whiteouts + {from}, to);
    hide SubtreePresent, Moved, MovedSet, AtOrBelow;
  }

  /** Nothing of the overlay lives at or below a source that becomes a redirect. */
  lemma RedirectNodes(s: State, from: Path, to: Path, q: Path)
    requires Proper(q, from, to) && !SubtreePresent(s, from)
    ensures AtOrBelow(q, from) ==> q !in s.nodes && q !in s.redirects
    ensures AtOrBelow(q, to) ==> Rebase(q, to, from) !in s.nodes
  {
    if AtOrBelow(q, to) { RebaseBack(q, to, from); }
  }

  // --------------------------------------------------------------- visibility

  /** Some whiteout strictly below dir covers p. */
  predicate CoveredInside(whiteouts: set<Path>, dir: Path, p: Path) {
    exists w | w in whiteouts :: Below(w, dir) && AtOrBelow(p, w)
  }

  /** Some whiteout lies strictly above dir. */
  predicate CoveredAbove(whiteouts: set<Path>, dir: Path) {
    exists w | w in whiteouts :: Below(dir, w)
  }

  predicate HiddenAfter(s: State, from: Path, to: Path, fromLower: bool, x: Path) {
    if AtOrBelow(x, to) then CoveredInside(s.whiteouts, from, Rebase(x, to, from)) || CoveredAbove(s.whiteouts, to)
    else if AtOrBelow(x, from) then fromLower || from in s.whiteouts || CoveredAbove(s.whiteouts, from)
    else Hidden(s.whiteouts, x)
  }

  /** Ancestors of a canonical path are canonical. */
  lemma AncestorCanonical(x: Path, q: Path)
    requires Canonical(x) && AtOrBelow(x, q)
    ensures Canonical(q)
  {
    if x != q {
      assert x == q + "/" + x[|q| + 1..];
      CanonicalJoin(q, x[|q| + 1..]);
    }
  }

  /** Strictly above one of two incomparable names means inside neither subtree. */
  lemma AboveIsOutside(dir: Path, other: Path, q: Path)
    requires Below(dir, q) && Incomparable(dir, other)
    ensures !AtOrBelow(q, dir) && !AtOrBelow(q, other)
  {
    if AtOrBelow(q, other) { AtOrBelowTransitive(dir, q, other); }
  }

  lemma IncomparableSymmetric(a: Path, b: Path)
    requires Incomparable(a, b)
    ensures Incomparable(b, a)
  {
  }

  lemma CoversInside(whiteouts: set<Path>, dir: Path, p: Path, w: Path)
    requires w in whiteouts && Below(w, dir) && AtOrBelow(p, w)
    ensures CoveredInside(whiteouts, dir, p)
  {
  }

  lemma CoversAbove(whiteouts: set<Path>, dir: Path, w: Path)
    requires w in whiteouts && Below(dir, w)
    ensures CoveredAbove(whiteouts, dir)
  {
  }

  /** The source of a path strictly inside the destination is strictly inside the source. */
  lemma InsideMaps(q: Path, from: Path, to: Path)
    requires Canonical(q) && AtOrBelow(q, to)
    ensures AtOrBelow(Rebase(q, to, from), from) && (q != to ==> Below(Rebase(q, to, from), from))
    ensures Rebase(Rebase(q, to, from), from, to) == q
  {
    RebaseBack(q, to, from);
  }

  lemma HiddenInDestination(s: State, from: Path, to: Path, fromLower: bool, x: Path)
    requires Renamable(s, from, to) && Canonical(x) && AtOrBelow(x, to)
    ensures Hidden(DoRename(s, from, to, fromLower).whiteouts, x) <==>
            CoveredInside(s.whiteouts, from, Rebase(x, to, from)) || CoveredAbove(s.whiteouts, to)
  {
    hide Canonical, CleanKeys, Rebase, AtOrBelow, DoRename, Hidden, Incomparable, CoveredInside, CoveredAbove;
    var w, p := DoRename(s, from, to, fromLower).whiteouts, Rebase(x, to, from);
    IncomparableSymmetric(from, to);
    InsideMaps(x, from, to);
    if Hidden(w, x) {
      var q := HiddenBy(w, x);
      AncestorCanonical(x, q);
      MapsAfter(s, from, to, fromLower, q);
      AboveOrInside(x, to, q);
      if AtOrBelow(q, to) {
        InsideMaps(q, from, to);
        RebaseMonotone(x, q, to, from);
        CoversInside(s.whiteouts, from, p, Rebase(q, to, from));
      } else {
        AboveIsOutside(to, from, q);
        CoversAbove(s.whiteouts, to, q);
      }
    }
    if CoveredInside(s.whiteouts, from, p) {
      var o := CoveredInsideBy(s.whiteouts, from, p);
      CleanWhiteout(s, o);
      BelowIsAtOrBelow(o, from);
      RebaseBack(o, from, to);
      RebaseCanonical(o, from, to);
      RebaseCanonical(x, to, from);
      BelowIsNot(o, from);
      MapsAfter(s, from, to, fromLower, Rebase(o, from, to));
      RebaseMonotone(p, o, from, to);
      Hides(w, x, Rebase(o, from, to));
    }
    if CoveredAbove(s.whiteouts, to) {
      var o := CoveredAboveBy(s.whiteouts, to);
      CleanWhiteout(s, o);
      AboveIsOutside(to, from, o);
      MapsAfter(s, from, to, fromLower, o);
      BelowIsAtOrBelow(to, o);
      AtOrBelowTransitive(x, to, o);
      Hides(w, x, o);
    }
  }

  lemma CoveredInsideBy(whiteouts: set<Path>, dir: Path, p: Path) returns (w: Path)
    requires CoveredInside(whiteouts, dir, p)
    ensures w in whiteouts && Below(w, dir) && AtOrBelow(p, w)
  {
    w :| w in whiteouts && Below(w, dir) && AtOrBelow(p, w);
  }

  lemma CoveredAboveBy(whiteouts: set<Path>, dir: Path) returns (w: Path)
    requires CoveredAbove(whiteouts, dir)
    ensures w in whiteouts && Below(dir, w)
  {
    w :| w in whiteouts && Below(dir, w);
  }

  lemma CleanWhiteout(s: State, w: Path)
    requires CleanKeys(s) && w in s.whiteouts
    ensures Canonical(w)
  {
  }

  lemma BelowIsAtOrBelow(p: Path, q: Path)
    requires Below(p, q)
    ensures AtOrBelow(p, q)
  {
  }

  lemma BelowIsNot(p: Path, q: Path)
    requires Below(p, q)
    ensures p != q
  {
  }

  lemma HiddenInSource(s: State, from: Path, to: Path, fromLower: bool, x: Path)
    requires Renamable(s, from, to) && Canonical(x) && AtOrBelow(x, from)
    ensures Hidden(DoRename(s, from, to, fromLower).whiteouts, x) <==>
            fromLower || from in s.whiteouts || CoveredAbove(s.whiteouts, from)
  {
    var w := DoRename(s, from, to, fromLower).whiteouts;
    SubtreesDisjoint(x, from, to);
    assert !AtOrBelow(from, to);
    SelfBelow(from);
    hide Canonical, CleanKeys, Rebase, AtOrBelow, DoRename, Hidden, Incomparable, CoveredAbove;
    MapsAfter(s, from, to, fromLower, from);
    if from in w { Hides(w, x, from); }
    if Hidden(w, x) {
      var q := HiddenBy(w, x);
      AncestorCanonical(x, q);
      MapsAfter(s, from, to, fromLower, q);
      AboveOrInside(x, from, q);
      if !AtOrBelow(q, from) {
        AboveIsOutside(from, to, q);
        CoversAbove(s.whiteouts, from, q);
      } else {
        SubtreesDisjoint(q, from, to);
      }
    }
    if CoveredAbove(s.whiteouts, from) {
      var o := CoveredAboveBy(s.whiteouts, from);
      CleanWhiteout(s, o);
      AboveIsOutside(from, to, o);
      MapsAfter(s, from, to, fromLower, o);
      BelowIsAtOrBelow(from, o);
      AtOrBelowTransitive(x, from, o);
      Hides(w, x, o);
    }
  }

  lemma HiddenElsewhere(s: State, from: Path, to: Path, fromLower: bool, x: Path)
    requires Renamable(s, from, to) && !AtOrBelow(x, from) && !AtOrBelow(x, to)
    ensures Hidden(DoRename(s, from, to, fromLower).whiteouts, x) <==> Hidden(s.whiteouts, x)
  {
    hide Canonical, CleanKeys, Rebase, AtOrBelow, DoRename, Incomparable;
    var w := DoRename(s, from, to, fromLower).whiteouts;
    forall q | AtOrBelow(x, q) ensures q in w <==> q in s.whiteouts {
      if AtOrBelow(q, to) { AtOrBelowTransitive(x, q, to); }
      if AtOrBelow(q, from) { AtOrBelowTransitive(x, q, from); }
      MapsAfter(s, from, to, fromLower, q);
    }
  }

  /** Which whiteouts cover a path after a rename. */
  lemma HiddenAfterIs(s: State, from: Path, to: Path, fromLower: bool, x: Path)
    requires Renamable(s, from, to) && Proper(x, from, to)
    ensures Hidden(DoRename(s, from, to, fromLower).whiteouts, x) <==> HiddenAfter(s, from, to, fromLower, x)
  {
    hide Renamable, Canonical, DoRename, Hidden, AtOrBelow, CoveredInside, CoveredAbove, Rebase;
    if AtOrBelow(x, to) {
      HiddenInDestination(s, from, to, fromLower, x);
    } else if AtOrBelow(x, from) {
      HiddenInSource(s, from, to, fromLower, x);
    } else {
      HiddenElsewhere(s, from, to, fromLower, x);
    }
  }

  // ----------------------------------------------------------- lower location

  /** Some redirect at or below dir leads p elsewhere. */
  predicate LedInside(redirects: map<Path, Path>, dir: Path, p: Path) {
    exists q | q in redirects :: AtOrBelow(q, dir) && AtOrBelow(p, q)
  }

  /** Where the lower tree is consulted for x after the rename. */
  function LocationAfter(s: State, from: Path, to: Path, x: Path): Path {
    if AtOrBelow(x, to) then
      var p := Rebase(x, to, from);
      if !SubtreePresent(s, from) then p
      else if LedInside(s.redirects, from, p) then LowerPath(s.redirects, p)
      else LowerPath(Pruned(s.redirects, to), x)
    else if AtOrBelow(x, from) then LowerPath(Pruned(s.redirects, from), x)
    else LowerPath(s.redirects, x)
  }

  /** Two tables answering alike at q, in the form the lookup lemmas use. */
  lemma SameAt(r1: map<Path, Path>, r2: map<Path, Path>, q: Path)
    requires Get(r1, Some(q)) == Get(r2, Some(q))
    ensures (q in r1 <==> q in r2) && (q in r1 ==> r1[q] == r2[q])
  {
  }

  lemma LocationElsewhere(s: State, from: Path, to: Path, fromLower: bool, x: Path)
    requires Renamable(s, from, to) && !AtOrBelow(x, from) && !AtOrBelow(x, to)
    ensures LowerPath(DoRename(s, from, to, fromLower).redirects, x) == LowerPath(s.redirects, x)
  {
    hide Canonical, CleanKeys, Rebase, AtOrBelow, DoRename, Incomparable, LowerPath, SubtreePresent;
    var r := DoRename(s, from, to, fromLower).redirects;
    LowerPathFrame(r, s.redirects, x) by {
      forall q | AtOrBelow(x, q) ensures (q in r <==> q in s.redirects) && (q in r ==> r[q] == s.redirects[q]) {
        if AtOrBelow(q, to) { AtOrBelowTransitive(x, q, to); }
        if AtOrBelow(q, from) { AtOrBelowTransitive(x, q, from); }
        MapsAfter(s, from, to, fromLower, q);
        SelfBelow(to);
        SameAt(r, s.redirects, q);
      }
    }
  }

  lemma LocationInSource(s: State, from: Path, to: Path, fromLower: bool, x: Path)
    requires Renamable(s, from, to) && Canonical(x) && AtOrBelow(x, from)
    ensures LowerPath(DoRename(s, from, to, fromLower).redirects, x) == LowerPath(Pruned(s.redirects, from), x)
  {
    hide Canonical, CleanKeys, Rebase, AtOrBelow, DoRename, LowerPath, SubtreePresent, Incomparable;
    var r, t := DoRename(s, from, to, fromLower).redirects, Pruned(s.redirects, from);
    LowerPathFrame(r, t, x) by {
      forall q | AtOrBelow(x, q) ensures (q in r <==> q in t) && (q in r ==> r[q] == t[q]) {
        AncestorCanonical(x, q);
        MapsAfter(s, from, to, fromLower, q);
        AboveOrInside(x, from, q);
        SelfBelow(to);
        if AtOrBelow(q, from) {
          SubtreesDisjoint(q, from, to);
          if !SubtreePresent(s, from) { RedirectNodes(s, from, to, q); }
        } else {
          AboveIsOutside(from, to, q);
        }
        SameAt(r, t, q);
      }
    }
  }

  lemma LocationUnled(s: State, from: Path, to: Path, fromLower: bool, x: Path)
    requires Renamable(s, from, to) && Canonical(x) && AtOrBelow(x, to)
    requires SubtreePresent(s, from) && !LedInside(s.redirects, from, Rebase(x, to, from))
    ensures LowerPath(DoRename(s, from, to, fromLower).redirects, x) == LowerPath(Pruned(s.redirects, to), x)
  {
    hide Canonical, CleanKeys, Rebase, AtOrBelow, DoRename, LowerPath, SubtreePresent, Incomparable;
    var r, t := DoRename(s, from, to, fromLower).redirects, Pruned(s.redirects, to);
    IncomparableSymmetric(from, to);
    LowerPathFrame(r, t, x) by {
      forall q | AtOrBelow(x, q) ensures (q in r <==> q in t) && (q in r ==> r[q] == t[q]) {
        AncestorCanonical(x, q);
        MapsAfter(s, from, to, fromLower, q);
        AboveOrInside(x, to, q);
        if AtOrBelow(q, to) {
          InsideMaps(q, from, to);
          RebaseMonotone(x, q, to, from);
          assert Rebase(q, to, from) !in s.redirects;
        } else {
          AboveIsOutside(to, from, q);
        }
        SameAt(r, t, q);
      }
    }
  }

  /** Re-basing changes the length by a constant. */
  lemma RebaseLength(p: Path, from: Path, to: Path)
    requires AtOrBelow(p, from) && Canonical(p)
    ensures |from| <= |p| && Rebase(p, from, to) == to + p[|from|..]
  {
    SuffixCarries(p, from, to);
    MatchRejoins(p, from);
    if p == from { assert p[|from|..] == ""; }
  }

  lemma DeepestIs(redirects: map<Path, Path>, p: Path) returns (d: Path)
    requires exists q :: q in redirects && AtOrBelow(p, q)
    ensures d in redirects && AtOrBelow(p, d) && |d| <= |p| && LowerPath(redirects, p) == redirects[d] + p[|d|..]
    ensures forall q :: q in redirects && AtOrBelow(p, q) ==> |q| <= |d|
  {
    var q0 :| q0 in redirects && AtOrBelow(p, q0);
    BoundaryPrefix(redirects, p, q0);
    d := Deepest(redirects, p, |p|).value;
    forall q | q in redirects && AtOrBelow(p, q) ensures |q| <= |d| { BoundaryPrefix(redirects, p, q); }
  }

  /** A path led by a redirect inside dir is led by its deepest one, which is inside dir too. */
  lemma DeepestInside(redirects: map<Path, Path>, dir: Path, p: Path) returns (d: Path)
    requires LedInside(redirects, dir, p)
    ensures d in redirects && AtOrBelow(p, d) && |d| <= |p| && AtOrBelow(d, dir)
    ensures LowerPath(redirects, p) == redirects[d] + p[|d|..]
    ensures forall q :: q in redirects && AtOrBelow(p, q) ==> |q| <= |d|
  {
    var q0 :| q0 in redirects && AtOrBelow(q0, dir) && AtOrBelow(p, q0);
    hide AtOrBelow, LowerPath;
    d := DeepestIs(redirects, p);
    SharedDescendant(p, q0, d);
    AtOrBelowTransitive(d, q0, dir);
  }

  lemma LocationLed(s: State, from: Path, to: Path, fromLower: bool, x: Path)
    requires Renamable(s, from, to) && Canonical(x) && AtOrBelow(x, to)
    requires SubtreePresent(s, from) && LedInside(s.redirects, from, Rebase(x, to, from))
    ensures LowerPath(DoRename(s, from, to, fromLower).redirects, x) == LowerPath(s.redirects, Rebase(x, to, from))
  {
    var p, r := Rebase(x, to, from), DoRename(s, from, to, fromLower).redirects;
    hide Canonical, CleanKeys, Rebase, AtOrBelow, DoRename, LowerPath, SubtreePresent, Incomparable, LedInside;
    InsideMaps(x, from, to);
    var d := DeepestInside(s.redirects, from, p);
    RebaseCanonical(x, to, from);
    AncestorCanonical(p, d);
    var e := Rebase(d, from, to);
    RebaseBack(d, from, to);
    RebaseCanonical(d, from, to);
    MapsAfter(s, from, to, fromLower, e);
    RebaseMonotone(p, d, from, to);
    RebaseLength(p, from, to);
    RebaseLength(d, from, to);
    LedSuffix(p, d, x, e, from, to);
    LowerPathBy(r, x, e) by {
      forall q | q in r && AtOrBelow(x, q) ensures |q| <= |e| {
        LedBound(s, from, to, fromLower, x, q, d);
      }
    }
  }

  lemma LedSuffix(p: Path, d: Path, x: Path, e: Path, from: Path, to: Path)
    requires |from| <= |d| <= |p| && x == to + p[|from|..] && e == to + d[|from|..]
    ensures |e| == |to| + |d| - |from| && |e| <= |x| && x[|e|..] == p[|d|..]
  {
  }

  lemma LedBound(s: State, from: Path, to: Path, fromLower: bool, x: Path, q: Path, d: Path)
    requires Renamable(s, from, to) && Canonical(x) && AtOrBelow(x, to) && SubtreePresent(s, from)
    requires q in DoRename(s, from, to, fromLower).redirects && AtOrBelow(x, q)
    requires AtOrBelow(d, from) && |from| <= |d|
    requires forall o :: o in s.redirects && AtOrBelow(Rebase(x, to, from), o) ==> |o| <= |d|
    ensures |q| <= |to| + |d| - |from|
  {
    hide Canonical, CleanKeys, Rebase, AtOrBelow, DoRename, SubtreePresent, Incomparable;
    AncestorCanonical(x, q);
    MapsAfter(s, from, to, fromLower, q);
    AboveOrInside(x, to, q);
    if AtOrBelow(q, to) {
      InsideMaps(q, from, to);
      RebaseMonotone(x, q, to, from);
      RebaseLength(q, to, from);
      assert Rebase(q, to, from) in s.redirects;
    }
  }

  lemma LocationRedirected(s: State, from: Path, to: Path, fromLower: bool, x: Path)
    requires Renamable(s, from, to) && Canonical(x) && AtOrBelow(x, to) && !SubtreePresent(s, from)
    ensures LowerPath(DoRename(s, from, to, fromLower).redirects, x) == Rebase(x, to, from)
  {
    hide Canonical, CleanKeys, Rebase, AtOrBelow, DoRename, LowerPath, SubtreePresent, Incomparable;
    var r := DoRename(s, from, to, fromLower).redirects;
    SelfBelow(to);
    MapsAfter(s, from, to, fromLower, to);
    LowerPathBy(r, x, to) by {
      forall q | q in r && AtOrBelow(x, q) ensures |q| <= |to| {
        AncestorCanonical(x, q);
        MapsAfter(s, from, to, fromLower, q);
        AboveOrInside(x, to, q);
      }
    }
    RebaseLength(x, to, from);
  }

  /** Where the lower tree is consulted after a rename. */
  lemma LocationAfterIs(s: State, from: Path, to: Path, fromLower: bool, x: Path)
    requires Renamable(s, from, to) && Proper(x, from, to)
    ensures LowerLocation(DoRename(s, from, to, fromLower), x) == LocationAfter(s, from, to, x)
  {
    RootStays(s);
    EdgeSlashes(x);
    EdgeSlashes(from);
    EdgeSlashes(to);
    InsideIsNotRoot(x, from);
    InsideIsNotRoot(x, to);
    hide Renamable, Canonical, DoRename, AtOrBelow, LowerPath, SubtreePresent, LedInside, Rebase;
    if AtOrBelow(x, to) {
      if !SubtreePresent(s, from) {
        LocationRedirected(s, from, to, fromLower, x);
      } else if LedInside(s.redirects, from, Rebase(x, to, from)) {
        LocationLed(s, from, to, fromLower, x);
      } else {
        LocationUnled(s, from, to, fromLower, x);
      }
    } else if AtOrBelow(x, from) {
      LocationInSource(s, from, to, fromLower, x);
    } else {
      LocationElsewhere(s, from, to, fromLower, x);
    }
  }

  /** No redirect leads the root elsewhere. */
  lemma RootStays(s: State)
    requires CleanKeys(s)
    ensures LowerPath(s.redirects, "") == ""
  {
    EdgeSlashes("");
    LowerPathNone(s.redirects, "");
  }

  lemma InsideIsNotRoot(x: Path, dir: Path)
    requires dir != ""
    ensures AtOrBelow(x, dir) ==> x != ""
  {
  }

  // ------------------------------------------------------------------ entries

  /** The size a node shows when its holes read the lower path `source`. */
  function ShownSize(tree: Lower, n: Node, source: Path): Result<int, Errno> {
    if n.kind != File then Ok(0)
    else if n.size >= 0 then Ok(n.size)
    else if !n.fallthrough then Ok(Extents.ExtentEnd(n.extents))
    else match tree.stat(source)
      case Found(st) => Ok(Max(Extents.ExtentEnd(n.extents), st.size))
      case Missing => Ok(Max(Extents.ExtentEnd(n.extents), 0))
      case Unreadable => Err(EIO)
  }

  /** Resolution from its ingredients: node, override, whiteout cover, lower location, source of the holes. */
  function EntryAt(tree: Lower, node: Option<Node>, patch: Option<Patch>, hidden: bool, at: Path, source: Path)
    : Result<Entry, Errno>
  {
    if node.None? && hidden then Ok(ABSENT)
    else match tree.stat(at)
      case Unreadable => Err(EIO)
      case Missing =>
        if node.Some? then NodeEntry(node.value, None, ShownSize(tree, node.value, source)) else Ok(ABSENT)
      case Found(st) =>
        if node.Some? then NodeEntry(node.value, Some(st), ShownSize(tree, node.value, source))
        else FoundEntry(patch, st)
  }

  /** Where a fallthrough node's holes read from, before and after the rename. */
  function SourceBefore(s: State, node: Option<Node>): Path {
    if node.Some? && node.value.fallthrough then LowerLocation(s, node.value.lowerRel) else ""
  }

  function SourceAfter(s: State, from: Path, to: Path, node: Option<Node>): Path {
    if node.Some? && node.value.fallthrough then LocationAfter(s, from, to, node.value.lowerRel) else ""
  }

  /** A fallthrough node names a canonical lower path, as every node of a sound state does. */
  ghost predicate Sourced(node: Option<Node>) {
    node.Some? && node.value.fallthrough ==> Canonical(node.value.lowerRel)
  }

  lemma SoundIsSourced(s: State, at: Option<Path>)
    requires SoundNodes(s.nodes)
    ensures Sourced(Get(s.nodes, at))
  {
  }

  lemma ResolveIs(s: State, tree: Lower, rel: Path)
    requires Sourced(Get(s.nodes, Some(rel)))
    ensures var node := Get(s.nodes, Some(rel));
            Resolve(s, tree, rel) == EntryAt(tree, node, Get(s.overrides, Some(rel)),
              Hidden(s.whiteouts, rel), LowerLocation(s, rel), SourceBefore(s, node))
  {
    hide Hidden, LowerLocation, Canonical;
    if rel in s.nodes && s.nodes[rel].fallthrough { EdgeSlashes(s.nodes[rel].lowerRel); }
  }

  /** What every path resolves to after a rename, from the overlay and the lower tree before it. */
  lemma RenamedResolve(s: State, tree: Lower, from: Path, to: Path, fromLower: bool, x: Path)
    requires Renamable(s, from, to) && Proper(x, from, to) && Sourced(Get(s.nodes, Shows(from, to, x)))
    ensures var node := Get(s.nodes, Shows(from, to, x));
            Resolve(DoRename(s, from, to, fromLower), tree, x) ==
            EntryAt(tree, node, Get(s.overrides, Shows(from, to, x)), HiddenAfter(s, from, to, fromLower, x),
              LocationAfter(s, from, to, x), SourceAfter(s, from, to, node))
  {
    hide Renamable, Proper, DoRename, Resolve, EntryAt, Hidden, HiddenAfter, LowerLocation,
      LocationAfter, Shows;
    var r := DoRename(s, from, to, fromLower);
    MapsAfter(s, from, to, fromLower, x);
    ResolveIs(r, tree, x);
    HiddenAfterIs(s, from, to, fromLower, x);
    LocationAfterIs(s, from, to, fromLower, x);
    var node := Get(s.nodes, Shows(from, to, x));
    if node.Some? && node.value.fallthrough {
      CanonicalIsProper(node.value.lowerRel, from, to);
      LocationAfterIs(s, from, to, fromLower, node.value.lowerRel);
    }
  }

  lemma CanonicalIsProper(q: Path, from: Path, to: Path)
    requires Canonical(q)
    ensures Proper(q, from, to)
  {
  }

  // ---------------------------------------------------------- what is kept

  /** What the lower tree contributes at a location, a covered one contributing nothing. */
  function Seen(tree: Lower, hidden: bool, at: Path): Probe {
    if hidden then Missing else tree.stat(at)
  }

  predicate Unsupported(p: Probe) { p.Found? && p.stat.ftype == TypeOther }

  /** A lookup of the node fails: its twin or the source of its size cannot be inspected. */
  predicate Fails(tree: Lower, n: Node, at: Path, source: Path) {
    tree.stat(at).Unreadable? || ShownSize(tree, n, source).Err?
  }

  /** The condition for two resolutions of one node and override to answer alike, on lower probes and sizes. */
  predicate SameAnswer(tree: Lower, node: Option<Node>, h1: bool, a1: Path, s1: Path, h2: bool, a2: Path, s2: Path) {
    match node
    case None =>
      || Seen(tree, h1, a1) == Seen(tree, h2, a2)
      || (Unsupported(Seen(tree, h1, a1)) && Unsupported(Seen(tree, h2, a2)))
    case Some(n) =>
      if Fails(tree, n, a1, s1) || Fails(tree, n, a2, s2)
      then Fails(tree, n, a1, s1) && Fails(tree, n, a2, s2)
      else tree.stat(a1) == tree.stat(a2) && ShownSize(tree, n, s1) == ShownSize(tree, n, s2)
  }

  lemma SameAnswerIff(tree: Lower, node: Option<Node>, patch: Option<Patch>,
                      h1: bool, a1: Path, s1: Path, h2: bool, a2: Path, s2: Path)
    ensures EntryAt(tree, node, patch, h1, a1, s1) == EntryAt(tree, node, patch, h2, a2, s2) <==>
            SameAnswer(tree, node, h1, a1, s1, h2, a2, s2)
  {
  }

  lemma ShowsMoved(p: Path, from: Path, to: Path)
    requires AtOrBelow(p, from) && Canonical(p) && Canonical(to)
    ensures var t := Rebase(p, from, to);
            && AtOrBelow(t, to) && Rebase(t, to, from) == p && Shows(from, to, t) == Some(p)
            && Canonical(t) && Proper(t, from, to)
  {
    RebaseBack(p, from, to);
    RebaseCanonical(p, from, to);
  }

  /**
   An entry is kept by a rename of any tree, overlay, lower or mixed, exactly when the lower tree
   answers alike at its old and its new location (covered ones answering nothing) and its size does.
   */
  lemma MovedEntryKeptIff(s: State, tree: Lower, from: Path, to: Path, fromLower: bool, p: Path)
    requires Renamable(s, from, to) && AtOrBelow(p, from) && Canonical(p) && Sourced(Get(s.nodes, Some(p)))
    ensures var t, node := Rebase(p, from, to), Get(s.nodes, Some(p));
            Resolve(DoRename(s, from, to, fromLower), tree, t) == Resolve(s, tree, p) <==>
            SameAnswer(tree, node,
              CoveredInside(s.whiteouts, from, p) || CoveredAbove(s.whiteouts, to), LocationAfter(s, from, to, t),
              SourceAfter(s, from, to, node),
              Hidden(s.whiteouts, p), LowerLocation(s, p), SourceBefore(s, node))
  {
    hide DoRename, Resolve, EntryAt, Hidden, LowerLocation, LocationAfter, SameAnswer, AtOrBelow,
      CleanKeys, Canonical, Rebase, CoveredInside, CoveredAbove, Incomparable;
    var t, node := Rebase(p, from, to), Get(s.nodes, Some(p));
    ShowsMoved(p, from, to);
    RenamedResolve(s, tree, from, to, fromLower, t);
    ResolveIs(s, tree, p);
    SameAnswerIff(tree, node, Get(s.overrides, Some(p)), HiddenAfter(s, from, to, fromLower, t),
      LocationAfter(s, from, to, t), SourceAfter(s, from, to, node),
      Hidden(s.whiteouts, p), LowerLocation(s, p), SourceBefore(s, node));
  }

  /** An overlay node carries its kind, attributes and extents along; its size unless derived from a moved source. */
  lemma MovedNodeFace(s: State, tree: Lower, from: Path, to: Path, fromLower: bool, p: Path)
    requires Renamable(s, from, to) && AtOrBelow(p, from) && Canonical(p) && Sourced(Get(s.nodes, Some(p)))
    requires p in s.nodes
    ensures var e, f := Resolve(DoRename(s, from, to, fromLower), tree, Rebase(p, from, to)), Resolve(s, tree, p);
            e.Ok? && f.Ok? ==>
              && e.value.kind == f.value.kind && e.value.attrs == f.value.attrs && e.value.upper == f.value.upper
              && (e.value.size == f.value.size <==>
                    ShownSize(tree, s.nodes[p], SourceAfter(s, from, to, Some(s.nodes[p]))) ==
                    ShownSize(tree, s.nodes[p], SourceBefore(s, Some(s.nodes[p]))))
  {
    hide DoRename, Resolve, Hidden, LowerLocation, LocationAfter, AtOrBelow, CleanKeys, Canonical, Rebase,
      CoveredInside, CoveredAbove, Incomparable, SourceAfter, SourceBefore, ShownSize;
    ShowsMoved(p, from, to);
    RenamedResolve(s, tree, from, to, fromLower, Rebase(p, from, to));
    ResolveIs(s, tree, p);
  }

  lemma EntryAtAbsent(tree: Lower, node: Option<Node>, patch: Option<Patch>, hidden: bool, at: Path, source: Path)
    ensures var e := EntryAt(tree, node, patch, hidden, at, source);
            e.Ok? && e.value.kind.None? <==> node.None? && (hidden || tree.stat(at).Missing?)
  {
  }

  /** What of the renamed tree is absent at its new place: what has no node and no visible lower entry there. */
  lemma MovedAbsentIff(s: State, tree: Lower, from: Path, to: Path, fromLower: bool, p: Path)
    requires Renamable(s, from, to) && AtOrBelow(p, from) && Canonical(p) && Sourced(Get(s.nodes, Some(p)))
    ensures var t := Rebase(p, from, to);
            Absent(DoRename(s, from, to, fromLower), tree, t) <==>
            p !in s.nodes && (CoveredInside(s.whiteouts, from, p) || CoveredAbove(s.whiteouts, to)
                              || tree.stat(LocationAfter(s, from, to, t)).Missing?)
  {
    hide DoRename, Resolve, EntryAt, LocationAfter, AtOrBelow, CleanKeys, Canonical, Rebase,
      CoveredInside, CoveredAbove, Incomparable;
    var t, node := Rebase(p, from, to), Get(s.nodes, Some(p));
    ShowsMoved(p, from, to);
    RenamedResolve(s, tree, from, to, fromLower, t);
    EntryAtAbsent(tree, node, Get(s.overrides, Some(p)), HiddenAfter(s, from, to, fromLower, t),
      LocationAfter(s, from, to, t), SourceAfter(s, from, to, node));
  }

  /** What is absent at the old place. */
  lemma OldPlaceAbsentIff(s: State, tree: Lower, from: Path, to: Path, fromLower: bool, x: Path)
    requires Renamable(s, from, to) && AtOrBelow(x, from) && Canonical(x)
    ensures Absent(DoRename(s, from, to, fromLower), tree, x) <==>
            fromLower || from in s.whiteouts || CoveredAbove(s.whiteouts, from)
            || tree.stat(LowerPath(Pruned(s.redirects, from), x)).Missing?
  {
    SubtreesDisjoint(x, from, to);
    CanonicalIsProper(x, from, to);
    hide DoRename, Resolve, EntryAt, AtOrBelow, CleanKeys, Canonical, Rebase, LowerPath,
      CoveredInside, CoveredAbove, Incomparable;
    RenamedResolve(s, tree, from, to, fromLower, x);
    EntryAtAbsent(tree, None, None, HiddenAfter(s, from, to, fromLower, x), LocationAfter(s, from, to, x), "");
  }

  /**
   The mixed case: a lower-backed directory with something of the overlay below it, moved where the
   lower tree has nothing, is absent at both places.
   */
  lemma MixedRenameLosesRoot(s: State, tree: Lower, from: Path, to: Path)
    requires Renamable(s, from, to) && SubtreePresent(s, from)
    requires from !in s.nodes && from !in s.redirects
    requires tree.stat(LowerPath(Pruned(s.redirects, to), to)).Missing?
    ensures Absent(DoRename(s, from, to, true), tree, from) && Absent(DoRename(s, from, to, true), tree, to)
  {
    RootNotLed(s, from, to);
    SelfBelow(to);
    SelfBelow(from);
    hide DoRename, Absent, AtOrBelow, CleanKeys, Canonical, LowerPath, SubtreePresent, LedInside, Incomparable;
    OldPlaceAbsentIff(s, tree, from, to, true, from);
    MovedAbsentIff(s, tree, from, to, true, from);
  }

  lemma RootNotLed(s: State, from: Path, to: Path)
    requires from !in s.redirects
    ensures !LedInside(s.redirects, from, from) && Rebase(from, from, to) == to && Rebase(to, to, from) == from
  {
  }

  /** A path outside both trees keeps its entry exactly when the source of its size, if it has one, shows the same. */
  lemma OtherEntryKeptIff(s: State, tree: Lower, from: Path, to: Path, fromLower: bool, x: Path)
    requires Renamable(s, from, to) && !AtOrBelow(x, from) && !AtOrBelow(x, to) && Sourced(Get(s.nodes, Some(x)))
    ensures var node := Get(s.nodes, Some(x));
            Resolve(DoRename(s, from, to, fromLower), tree, x) == Resolve(s, tree, x) <==>
            (node.Some? && !tree.stat(LowerLocation(s, x)).Unreadable? ==>
               ShownSize(tree, node.value, SourceAfter(s, from, to, node)) ==
               ShownSize(tree, node.value, SourceBefore(s, node)))
  {
    hide DoRename, Resolve, EntryAt, Hidden, LowerPath, AtOrBelow, CleanKeys, Canonical, Incomparable,
      ShownSize, SourceAfter, SourceBefore;
    var node := Get(s.nodes, Some(x));
    RenamedResolve(s, tree, from, to, fromLower, x);
    ResolveIs(s, tree, x);
    RootStays(s);
    SameAnswerIff(tree, node, Get(s.overrides, Some(x)), Hidden(s.whiteouts, x),
      LocationAfter(s, from, to, x), SourceAfter(s, from, to, node),
      Hidden(s.whiteouts, x), LowerLocation(s, x), SourceBefore(s, node));
    OnlyEio(tree, node, SourceAfter(s, from, to, node), SourceBefore(s, node));
  }

  lemma OnlyEio(tree: Lower, node: Option<Node>, s1: Path, s2: Path)
    ensures node.Some? && ShownSize(tree, node.value, s1).Err? ==> ShownSize(tree, node.value, s1) == Err(EIO)
    ensures node.Some? && ShownSize(tree, node.value, s2).Err? ==> ShownSize(tree, node.value, s2) == Err(EIO)
  {
  }
}
