/**
 What a subtree rename does to the overlay maps: one re-keying of each map,
 undone by renaming back.
 */
module Renames {
  import opened Machine
  import opened Paths
  import opened Overlay

  /** No key lies at or below dir. */
  ghost predicate Vacant(keys: set<Path>, dir: Path) {
    forall p :: p in keys ==> !AtOrBelow(p, dir)
  }

  /** Nothing in any of the four maps lies at or below dir. */
  ghost predicate NothingAt(s: State, dir: Path) {
    && Vacant(s.nodes.Keys, dir) && Vacant(s.whiteouts, dir)
    && Vacant(s.overrides.Keys, dir) && Vacant(s.redirects.Keys, dir)
  }

  lemma OriginOfTarget(p: Path, from: Path, to: Path)
    requires Canonical(p) && !AtOrBelow(p, to)
    ensures Origin(Rebase(p, from, to), from, to) == p
  {
    if AtOrBelow(p, from) { RebaseBack(p, from, to); }
  }

  lemma MovedAt<V>(m: map<Path, V>, from: Path, to: Path, p: Path)
    requires AllClean(m.Keys) && Vacant(m.Keys, to) && p in m
    ensures Rebase(p, from, to) in Moved(m, from, to) && Moved(m, from, to)[Rebase(p, from, to)] == m[p]
  {
    assert p in m.Keys;
    OriginOfTarget(p, from, to);
  }

  lemma MovedFrom<V>(m: map<Path, V>, from: Path, to: Path, q: Path) returns (p: Path)
    requires q in Moved(m, from, to)
    ensures p in m && q == Rebase(p, from, to)
  {
    p :| p in m && q == Rebase(p, from, to);
  }

  /** Re-keying keeps every value, at exactly the re-based keys. */
  lemma MovedMeaning<V>(m: map<Path, V>, from: Path, to: Path)
    requires AllClean(m.Keys) && Vacant(m.Keys, to)
    ensures Moved(m, from, to).Keys == set p | p in m :: Rebase(p, from, to)
    ensures forall p :: p in m ==>
      Rebase(p, from, to) in Moved(m, from, to) && Moved(m, from, to)[Rebase(p, from, to)] == m[p]
  {
    forall p | p in m
      ensures Rebase(p, from, to) in Moved(m, from, to) && Moved(m, from, to)[Rebase(p, from, to)] == m[p]
    {
      MovedAt(m, from, to, p);
    }
  }

  lemma MovedVacates<V>(m: map<Path, V>, from: Path, to: Path)
    requires AllClean(m.Keys) && Incomparable(from, to)
    ensures Vacant(Moved(m, from, to).Keys, from)
  {
    forall q | q in Moved(m, from, to) ensures !AtOrBelow(q, from) {
      var p :| p in m && q == Rebase(p, from, to);
      if AtOrBelow(p, from) {
        assert p in m.Keys;
        RebaseBack(p, from, to);
        SubtreesDisjoint(q, from, to);
      }
    }
  }

  lemma MovedBack<V>(m: map<Path, V>, from: Path, to: Path)
    requires AllClean(m.Keys) && Vacant(m.Keys, to) && Incomparable(from, to) && Canonical(to)
    ensures Moved(Moved(m, from, to), to, from) == m
  {
    hide Canonical, Rebase, AtOrBelow, Moved, Incomparable;
    var there := Moved(m, from, to);
    MovedClean(m, from, to);
    MovedVacates(m, from, to);
    var back := Moved(there, to, from);
    forall p | p in m ensures p in back && back[p] == m[p] {
      MovedAt(m, from, to, p);
      ThereAndBack(m, from, to, p);
      MovedAt(there, to, from, Rebase(p, from, to));
    }
    forall p | p in back ensures p in m {
      var q := MovedFrom(there, to, from, p);
      var p0 := MovedFrom(m, from, to, q);
      ThereAndBack(m, from, to, p0);
    }
    assert back.Keys == m.Keys;
  }

  lemma ThereAndBack<V>(m: map<Path, V>, from: Path, to: Path, p: Path)
    requires AllClean(m.Keys) && Vacant(m.Keys, to) && p in m
    ensures Rebase(Rebase(p, from, to), to, from) == p
  {
    assert p in m.Keys;
    if AtOrBelow(p, from) { RebaseBack(p, from, to); }
  }

  lemma MovedSetBack(ps: set<Path>, from: Path, to: Path)
    requires AllClean(ps) && Vacant(ps, to) && Incomparable(from, to) && from !in ps
    ensures Vacant(MovedSet(ps, from, to), from)
    ensures MovedSet(MovedSet(ps, from, to), to, from) == ps
  {
    var there := MovedSet(ps, from, to);
    forall p | p in ps
      ensures WhiteoutTarget(p, from, to) in there
      ensures WhiteoutTarget(WhiteoutTarget(p, from, to), to, from) == p
      ensures !AtOrBelow(WhiteoutTarget(p, from, to), from)
    {
      if Below(p, from) {
        RebaseBack(p, from, to);
        SubtreesDisjoint(Rebase(p, from, to), from, to);
      }
    }
  }

  lemma ClearedVacant(s: State, dir: Path)
    requires NothingAt(s, dir)
    ensures Cleared(s, dir) == s
  {
    assert Pruned(s.nodes, dir) == s.nodes by { assert forall p :: p in s.nodes ==> p in s.nodes.Keys; }
    assert Pruned(s.redirects, dir) == s.redirects by { assert forall p :: p in s.redirects ==> p in s.redirects.Keys; }
    assert Pruned(s.overrides, dir) == s.overrides by { assert forall p :: p in s.overrides ==> p in s.overrides.Keys; }
    assert PrunedSet(s.whiteouts, dir) == s.whiteouts;
  }

  lemma StillPresent(s: State, from: Path, to: Path)
    requires CleanKeys(s) && SubtreePresent(s, from) && NothingAt(s, to)
    ensures SubtreePresent(MovedSubtree(s, from, to), to)
  {
    hide Canonical, Rebase, AtOrBelow, Moved;
    if p :| p in s.nodes && AtOrBelow(p, from) {
      RebaseBack(p, from, to);
      MovedAt(s.nodes, from, to, p);
      assert Rebase(p, from, to) in MovedSubtree(s, from, to).nodes;
    } else {
      var p :| p in s.redirects && AtOrBelow(p, from);
      RebaseBack(p, from, to);
      MovedAt(s.redirects, from, to, p);
      assert Rebase(p, from, to) in MovedSubtree(s, from, to).redirects;
    }
  }

  lemma KeysClean(s: State)
    requires CleanKeys(s)
    ensures AllClean(s.nodes.Keys) && AllClean(s.redirects.Keys) && AllClean(s.overrides.Keys) && AllClean(s.whiteouts)
  {
  }

  lemma MovedSubtreeBack(s: State, from: Path, to: Path)
    requires CleanKeys(s) && Canonical(to) && Incomparable(from, to)
    requires NothingAt(s, to) && from !in s.whiteouts
    ensures MovedSubtree(MovedSubtree(s, from, to), to, from) == s
    ensures NothingAt(MovedSubtree(s, from, to), from)
  {
    hide Canonical, CleanKeys, Vacant, Moved, MovedSet, Incomparable;
    KeysClean(s);
    MovedBack(s.nodes, from, to);
    MovedBack(s.redirects, from, to);
    MovedBack(s.overrides, from, to);
    MovedSetBack(s.whiteouts, from, to);
    MovedVacates(s.nodes, from, to);
    MovedVacates(s.redirects, from, to);
    MovedVacates(s.overrides, from, to);
  }

  lemma PresentAfterClearing(s: State, from: Path, to: Path)
    requires Incomparable(from, to)
    ensures SubtreePresent(Cleared(s, to), from) <==> SubtreePresent(s, from)
  {
    forall p ensures !(AtOrBelow(p, from) && AtOrBelow(p, to)) { SubtreesDisjoint(p, from, to); }
    hide AtOrBelow;
    if p :| p in s.nodes && AtOrBelow(p, from) {
      assert p in Cleared(s, to).nodes;
    } else if p :| p in s.redirects && AtOrBelow(p, from) {
      assert p in Cleared(s, to).redirects;
    }
  }

  /**
   Renaming an overlay subtree is one re-keying of all four maps, of what clearing the destination
   leaves, with the source whiteouted when asked; clearing a vacant destination leaves everything.
   */
  lemma RenameIsRekeying(s: State, from: Path, to: Path, fromLower: bool)
    requires SubtreePresent(s, from) && Incomparable(from, to)
    ensures DoRename(s, from, to, fromLower) == WithWhiteout(MovedSubtree(Cleared(s, to), from, to), from, fromLower)
    ensures NothingAt(s, to) ==>
      DoRename(s, from, to, fromLower) == WithWhiteout(MovedSubtree(s, from, to), from, fromLower)
  {
    assert from != to;
    hide SubtreePresent, Moved, MovedSet, NothingAt, Incomparable;
    PresentAfterClearing(s, from, to);
    if NothingAt(s, to) { ClearedVacant(s, to); }
  }

  /** Renaming an overlay subtree to a vacant place and back restores all four maps. */
  lemma RenameRoundTrip(s: State, from: Path, to: Path)
    requires CleanKeys(s) && Canonical(from) && Canonical(to) && Incomparable(from, to)
    requires SubtreePresent(s, from) && NothingAt(s, to) && from !in s.whiteouts
    ensures DoRename(DoRename(s, from, to, false), to, from, false) == s
  {
    hide Canonical, SubtreePresent, NothingAt, MovedSubtree, DoRename;
    RenameIsRekeying(s, from, to, false);
    MovedSubtreeBack(s, from, to);
    StillPresent(s, from, to);
    RenameIsRekeying(MovedSubtree(s, from, to), to, from, false);
  }

  // ------------------------------------------------------ path by path effect

  /** A path inside either subtree is canonical; elsewhere it may be anything, the root included. */
  ghost predicate Proper(q: Path, from: Path, to: Path) {
    AtOrBelow(q, from) || AtOrBelow(q, to) ==> Canonical(q)
  }

  /** What a cleared and re-keyed map holds at q. */
  lemma MovedPoint<V>(m: map<Path, V>, from: Path, to: Path, q: Path)
    requires AllClean(m.Keys) && Incomparable(from, to) && Proper(q, from, to)
    ensures var r := Moved(Pruned(m, to), from, to);
            if AtOrBelow(q, to) then
              && (q in r <==> Rebase(q, to, from) in m)
              && (q in r ==> r[q] == m[Rebase(q, to, from)])
            else if AtOrBelow(q, from) then q !in r
            else (q in r <==> q in m) && (q in r ==> r[q] == m[q])
  {
    hide Canonical;
    var kept := Pruned(m, to);
    if AtOrBelow(q, to) {
      var p := Rebase(q, to, from);
      RebaseBack(q, to, from);
      SubtreesDisjoint(p, from, to);
      if p in m { MovedAt(kept, from, to, p); }
    } else if AtOrBelow(q, from) {
      MovedVacates(kept, from, to);
      assert q in Moved(kept, from, to) ==> q in Moved(kept, from, to).Keys;
    } else if q in m {
      MovedAt(kept, from, to, q);
    }
  }

  lemma MovedSetPoint(ps: set<Path>, from: Path, to: Path, q: Path)
    requires AllClean(ps) && Incomparable(from, to) && Proper(q, from, to)
    ensures q in MovedSet(PrunedSet(ps, to), from, to) <==>
            if Below(q, to) then Rebase(q, to, from) in ps
            else q in ps && q != to && !Below(q, from)
  {
    hide Canonical;
    var kept := PrunedSet(ps, to);
    if Below(q, to) {
      var p := Rebase(q, to, from);
      RebaseBack(q, to, from);
      SubtreesDisjoint(p, from, to);
      if p in ps { assert WhiteoutTarget(p, from, to) == q; }
      if x :| x in kept && WhiteoutTarget(x, from, to) == q { assert Below(x, from); RebaseBack(x, from, to); }
    } else {
      if q in kept && !Below(q, from) { assert WhiteoutTarget(q, from, to) == q; }
      if x :| x in kept && WhiteoutTarget(x, from, to) == q {
        if Below(x, from) {
          RebaseBack(x, from, to);
        }
      }
    }
  }

  /**
   An overlay rename, path by path and for all four maps: the destination subtree shows what the
   source subtree held, the source is empty except for the whiteout asked for, the rest is untouched.
   */
  lemma RenamePointwise(s: State, from: Path, to: Path, fromLower: bool, q: Path)
    requires CleanKeys(s) && Proper(q, from, to) && Incomparable(from, to) && SubtreePresent(s, from)
    ensures var r := DoRename(s, from, to, fromLower);
            var p := Rebase(q, to, from);
            if AtOrBelow(q, to) then
              && (q in r.nodes <==> p in s.nodes) && (q in r.nodes ==> r.nodes[q] == s.nodes[p])
              && (q in r.redirects <==> p in s.redirects) && (q in r.redirects ==> r.redirects[q] == s.redirects[p])
              && (q in r.overrides <==> p in s.overrides) && (q in r.overrides ==> r.overrides[q] == s.overrides[p])
              && (q in r.whiteouts <==> q != to && p in s.whiteouts)
            else if AtOrBelow(q, from) then
              && q !in r.nodes && q !in r.redirects && q !in r.overrides
              && (q in r.whiteouts <==> q == from && (from in s.whiteouts || fromLower))
            else
              && (q in r.nodes <==> q in s.nodes) && (q in r.nodes ==> r.nodes[q] == s.nodes[q])
              && (q in r.redirects <==> q in s.redirects) && (q in r.redirects ==> r.redirects[q] == s.redirects[q])
              && (q in r.overrides <==> q in s.overrides) && (q in r.overrides ==> r.overrides[q] == s.overrides[q])
              && (q in r.whiteouts <==> q in s.whiteouts)
  {
    hide Canonical, CleanKeys, Moved, MovedSet, Pruned, PrunedSet, SubtreePresent, Rebase;
    KeysClean(s);
    PresentAfterClearing(s, from, to);
    MovedPoint(s.nodes, from, to, q);
    MovedPoint(s.redirects, from, to, q);
    MovedPoint(s.overrides, from, to, q);
    MovedSetPoint(s.whiteouts, from, to, q);
    assert from != to && !(AtOrBelow(q, from) && AtOrBelow(q, to)) by { SubtreesDisjoint(q, from, to); }
  }
}
