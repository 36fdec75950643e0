/**
 The overlay object: four mutable maps and the loops that walk them. Go visits
 map keys in an unspecified order, so every loop over a key set here picks its
 next key arbitrarily; the contracts hold for every such order.
 */
module UpperObject {
  import opened Machine
  import opened Paths
  import opened Extents
  import opened Overlay
  import opened EventMeaning
  import opened Renames
  import ExtentList
  import Lookup
  import Names

  // --------------------------------------------------------- subtree deletion

  method DeleteKeys<V>(m: map<Path, V>, dir: Path) returns (r: map<Path, V>)
    ensures r == Pruned(m, dir)
  {
    r := m;
    var todo := m.Keys;
    while todo != {}
      invariant todo <= m.Keys
      invariant forall p :: p in r <==> p in m && (p in todo || !AtOrBelow(p, dir))
      invariant forall p :: p in r ==> r[p] == m[p]
    {
      var p :| p in todo;
      if PrefixMatch(p, dir).Some? {
        r := r - {p};
      }
      todo := todo - {p};
    }
  }

  method DeletePaths(ps: set<Path>, dir: Path) returns (r: set<Path>)
    ensures r == PrunedSet(ps, dir)
  {
    r := ps;
    var todo := ps;
    while todo != {}
      invariant todo <= ps
      invariant forall p :: p in r <==> p in ps && (p in todo || !AtOrBelow(p, dir))
    {
      var p :| p in todo;
      if PrefixMatch(p, dir).Some? {
        r := r - {p};
      }
      todo := todo - {p};
    }
  }

  /** Whether some key lies in the subtree, the keys visited in any order. */
  method AnyAtOrBelow(keys: set<Path>, dir: Path) returns (b: bool)
    ensures b <==> exists p | p in keys :: AtOrBelow(p, dir)
  {
    var todo := keys;
    while todo != {}
      invariant todo <= keys
      invariant forall p :: p in keys && AtOrBelow(p, dir) ==> p in todo
    {
      var p :| p in todo;
      if PrefixMatch(p, dir).Some? {
        return true;
      }
      todo := todo - {p};
    }
    return false;
  }

  // ------------------------------------------------------------- subtree move

  /** r is m with exactly the keys outside todo re-keyed. */
  ghost predicate Halfway<V>(m: map<Path, V>, r: map<Path, V>, todo: set<Path>, from: Path, to: Path) {
    && todo <= m.Keys
    && (forall q :: q in r ==> SourceOf(m, r, todo, from, to, q))
    && (forall p :: p in todo ==> p in r)
    && (forall p :: p in m && p !in todo ==> Rebase(p, from, to) in r)
  }

  ghost predicate SourceOf<V>(m: map<Path, V>, r: map<Path, V>, todo: set<Path>, from: Path, to: Path, q: Path)
    requires q in r
  {
    var p := Origin(q, from, to);
    p in m && r[q] == m[p] && if q in todo then p == q else p !in todo && q == Rebase(p, from, to)
  }

  ghost predicate Movable(keys: set<Path>, from: Path, to: Path) {
    AllClean(keys) && Vacant(keys, to) && !AtOrBelow(to, from)
  }

  lemma TargetIsNew(keys: set<Path>, from: Path, to: Path, p: Path)
    requires Movable(keys, from, to) && p in keys
    ensures Origin(p, from, to) == p && Origin(Rebase(p, from, to), from, to) == p
    ensures AtOrBelow(p, from) ==> Rebase(p, from, to) !in keys
  {
    OriginOfTarget(p, from, to);
    if AtOrBelow(p, from) { RebaseBack(p, from, to); }
  }

  lemma HalfwayStep<V>(m: map<Path, V>, r: map<Path, V>, todo: set<Path>, from: Path, to: Path, p: Path)
    requires Movable(m.Keys, from, to) && Halfway(m, r, todo, from, to) && p in todo
    ensures var q := Rebase(p, from, to);
            Halfway(m, if AtOrBelow(p, from) then r[q := r[p]] - {p} else r, todo - {p}, from, to)
  {
    var q := Rebase(p, from, to);
    var moved := AtOrBelow(p, from);
    var r', todo' := if moved then r[q := r[p]] - {p} else r, todo - {p};
    TargetIsNew(m.Keys, from, to, p);
    assert !moved ==> q == p;
    hide Rebase, Origin, AtOrBelow, Movable;
    assert SourceOf(m, r, todo, from, to, p);
    forall x | x in r' ensures SourceOf(m, r', todo', from, to, x) {
      if x != q { assert SourceOf(m, r, todo, from, to, x); }
    }
    forall y | y in m && y !in todo' ensures Rebase(y, from, to) in r' {
      if y != p && Rebase(y, from, to) == p {
        assert SourceOf(m, r, todo, from, to, p);
        TargetIsNew(m.Keys, from, to, y);
      }
    }
  }

  lemma HalfwayDone<V>(m: map<Path, V>, r: map<Path, V>, from: Path, to: Path)
    requires Halfway(m, r, {}, from, to)
    ensures r == Moved(m, from, to)
  {
    hide Rebase, Origin;
    forall q | q in r ensures q in Moved(m, from, to) && Moved(m, from, to)[q] == r[q] {
      assert SourceOf(m, r, {}, from, to, q);
    }
    forall q | q in Moved(m, from, to) ensures q in r {
      var p := MovedFrom(m, from, to, q);
    }
  }

  lemma TodoStays<V>(m: map<Path, V>, r: map<Path, V>, todo: set<Path>, from: Path, to: Path, p: Path)
    requires Halfway(m, r, todo, from, to) && p in todo
    ensures p in r
  {
  }

  method MoveKeys<V>(m: map<Path, V>, from: Path, to: Path) returns (r: map<Path, V>)
    requires Movable(m.Keys, from, to)
    ensures r == Moved(m, from, to)
  {
    r := m;
    var todo := m.Keys;
    forall q | q in m ensures SourceOf(m, m, todo, from, to, q) { TargetIsNew(m.Keys, from, to, q); }
    while todo != {}
      invariant Halfway(m, r, todo, from, to)
    {
      hide Halfway, Movable, SourceOf;
      var p :| p in todo;
      TodoStays(m, r, todo, from, to, p);
      HalfwayStep(m, r, todo, from, to, p);
      match PrefixMatch(p, from) {
        case Some(rest) =>
          r := r[ToPath(to, rest) := r[p]] - {p};
        case None =>
      }
      todo := todo - {p};
    }
    HalfwayDone(m, r, from, to);
  }

  ghost predicate PathsMovable(ps: set<Path>, from: Path, to: Path) {
    && AllClean(ps) && !AtOrBelow(to, from)
    && (Vacant(ps, to) || forall p :: p in ps ==> !Below(p, from))
  }

  lemma WhiteoutIsNew(ps: set<Path>, from: Path, to: Path, p: Path, y: Path)
    requires PathsMovable(ps, from, to) && p in ps && y in ps && Below(p, from) && y != p
    ensures WhiteoutTarget(y, from, to) != p
  {
    if Below(y, from) { RebaseBack(y, from, to); }
  }

  /** Whiteouts strictly below `from` follow the rename. */
  method MovePaths(ps: set<Path>, from: Path, to: Path) returns (r: set<Path>)
    requires PathsMovable(ps, from, to)
    ensures r == MovedSet(ps, from, to)
  {
    r := ps;
    var todo := ps;
    while todo != {}
      invariant todo <= ps
      invariant r == todo + MovedSet(ps - todo, from, to)
    {
      var p :| p in todo;
      ghost var target := WhiteoutTarget(p, from, to);
      ghost var others := MovedSet(ps - todo, from, to);
      assert MovedSet(ps - (todo - {p}), from, to) == others + {target} by {
        hide WhiteoutTarget;
        assert ps - (todo - {p}) == (ps - todo) + {p};
      }
      assert Below(p, from) ==> p !in others by {
        forall y | y in ps - todo && Below(p, from) ensures WhiteoutTarget(y, from, to) != p {
          WhiteoutIsNew(ps, from, to, p, y);
        }
      }
      hide MovedSet;
      match PrefixMatch(p, from) {
        case Some(rest) =>
          if Below(p, from) { BelowHasRest(ps, p, from); }
          if rest != "" {
            assert Below(p, from) && target == ToPath(to, rest);
            r := (r - {p}) + {ToPath(to, rest)};
          }
        case None =>
      }
      todo := todo - {p};
      assert r == todo + (others + {target});
    }
    assert ps - todo == ps;
  }

  lemma BelowHasRest(ps: set<Path>, p: Path, from: Path)
    requires AllClean(ps) && p in ps && Below(p, from)
    ensures PrefixMatch(p, from).value != ""
  {
    MatchRejoins(p, from);
  }

  // --------------------------------------------------------------- the object

  class Upper {
    var lowerId: string
    var nodes: map<Path, Node>
    var whiteouts: set<Path>
    var overrides: map<Path, Patch>
    var redirects: map<Path, Path>
    var seqLast: nat

    ghost function View(): State
      reads this
    {
      State(lowerId, nodes, whiteouts, overrides, redirects, seqLast)
    }

    ghost predicate Valid()
      reads this
    {
      CleanKeys(View())
    }

    constructor ()
      ensures Valid() && View() == EMPTY
    {
      lowerId, nodes, whiteouts, overrides, redirects, seqLast := "", map[], {}, map[], map[], 0;
    }

    /** An object holding a restored image. */
    constructor FromState(s: State)
      requires CleanKeys(s)
      ensures Valid() && View() == s
    {
      lowerId, nodes, whiteouts := s.lowerId, s.nodes, s.whiteouts;
      overrides, redirects, seqLast := s.overrides, s.redirects, s.seqLast;
    }

    method CheckFreshPath(p: Path) returns (e: Option<Error>)
      ensures e == CheckFresh(View(), p)
    {
      var path := NormalizePath(p);
      if path.Err? {
        return Some(BadPath);
      }
      return if p in nodes then Some(Exists) else None;
    }

    /** Any overlay node directly inside dir; the keys are visited in any order. */
    method HasChildNode(dir: Path) returns (b: bool)
      ensures b == HasChildren(View(), dir)
    {
      var todo := nodes.Keys;
      while todo != {}
        invariant todo <= nodes.Keys
        invariant forall p :: p in nodes && DirectChild(p, dir) ==> p in todo
      {
        var p :| p in todo;
        if DirectChild(p, dir) {
          return true;
        }
        todo := todo - {p};
      }
      return false;
    }

    /** Any overlay node or redirect at dir or below it. */
    method HasSubtree(dir: Path) returns (b: bool)
      ensures b == SubtreePresent(View(), dir)
    {
      b := AnyAtOrBelow(nodes.Keys, dir);
      if !b {
        b := AnyAtOrBelow(redirects.Keys, dir);
      }
    }

    method CheckRenamePaths(from: Path, to: Path, fromLower: bool) returns (e: Option<Error>)
      ensures e == CheckRename(View(), from, to, fromLower)
    {
      var source := NormalizePath(from);
      var target := NormalizePath(to);
      if source.Err? || target.Err? {
        return Some(BadPath);
      }
      if from == to {
        return None;
      }
      if Below(to, from) {
        return Some(BadPath);
      }
      var present := HasSubtree(from);
      return if !present && !fromLower then Some(NoEntry) else None;
    }

    method CheckPath(op: Op) returns (e: Option<Error>)
      requires op.Write? || op.Unlink? || op.Rmdir? || op.Setattr?
      ensures e == CheckOp(View(), op)
    {
      var path := NormalizePath(op.path);
      if path.Err? {
        return Some(BadPath);
      }
      if op.path !in nodes {
        return None;
      }
      var kind := nodes[op.path].kind;
      if op.Write? || (op.Setattr? && op.newSize.Some?) {
        return if kind != File then Some(NotFile) else None;
      }
      if op.Unlink? {
        return if kind == Dir then Some(IsDir) else None;
      }
      if op.Rmdir? {
        if kind != Dir {
          return Some(NotDir);
        }
        var full := HasChildNode(op.path);
        return if full then Some(NotEmpty) else None;
      }
      return None;
    }

    /**
     The shared precondition, decided by the loops over the maps. It foretells Apply: with any fresh
     number stamped on it, the event is accepted exactly when nothing is reported.
     */
    method Check(ev: Event) returns (e: Option<Error>)
      ensures e == Overlay.Check(View(), ev)
      ensures e.None? <==> SameLower(View(), ev) && Fits(View(), ev.op)
      ensures forall n: nat :: seqLast < n ==> (e.None? <==> Overlay.Apply(View(), ev.(seqNo := n)).Ok?)
    {
      ghost var s := View();
      forall n: nat | seqLast < n
        ensures Overlay.Check(s, ev).None? <==> Overlay.Apply(s, ev.(seqNo := n)).Ok?
      {
        CheckPredictsApply(s, ev.(seqNo := n));
      }
      AcceptedIff(s, ev.(seqNo := seqLast + 1));
      hide Overlay.Apply, HasChildren, SubtreePresent, Canonical, Fits, SameLower;
      if ev.lowerId != "" && lowerId != "" && lowerId != ev.lowerId {
        return Some(LowerIdChanged);
      }
      match ev.op {
        case SessionStart => e := None;
        case Create(p, _, _, _) => e := CheckFreshPath(p);
        case Mkdir(p, _, _, _) => e := CheckFreshPath(p);
        case MakeSymlink(p, _, _, _) => e := CheckFreshPath(p);
        case Rename(from, to, fromLower) => e := CheckRenamePaths(from, to, fromLower);
        case UnknownOp => e := Some(BadOp);
        case _ => e := CheckPath(ev.op);
      }
    }

    method AbsorbOverride(p: Path, a: Attrs) returns (b: Attrs)
      modifies this`overrides
      ensures b == Overlay.AbsorbOverride(old(View()), p, a)
      ensures overrides == old(overrides) - {p}
    {
      b := a;
      if p in overrides {
        b := overrides[p].On(a);
      }
      overrides := overrides - {p};
    }

    method ApplyWrite(op: Op)
      requires op.Write?
      modifies this`nodes, this`overrides
      ensures View() == DoWrite(old(View()), op)
    {
      var n;
      if op.path in nodes {
        n := nodes[op.path];
      } else {
        n := FreshNode(File, op.mode, 0, 0);
        if op.sparse {
          var attrs := AbsorbOverride(op.path, Attrs(op.mode, op.uid, op.gid, 0, 0));
          n := Node(File, attrs, -1, "", [], true, op.path);
        }
      }
      if op.length > 0 {
        var xs := ExtentList.InsertExtent(n.extents, Extent(op.offset, op.length, op.blob, op.blobOffset));
        n := n.(extents := xs);
      }
      var end := Int64(op.offset + op.length);
      if op.eof {
        var xs := ExtentList.ClipExtents(n.extents, end);
        n := n.(size := end, extents := xs);
      } else if !n.fallthrough && n.size < end {
        n := n.(size := end);
      }
      nodes := nodes[op.path := n];
    }

    method Remove(p: Path)
      modifies this`nodes, this`whiteouts
      ensures View() == DoRemove(old(View()), p)
    {
      if p in nodes {
        nodes := nodes - {p};
      } else {
        whiteouts := whiteouts + {p};
      }
    }

    method ApplySetattr(p: Path, patch: Patch, size: Option<nat>)
      modifies this`nodes, this`overrides
      ensures View() == DoSetattr(old(View()), p, patch, size)
    {
      if p in nodes {
        var n := nodes[p].(attrs := patch.Masked().On(nodes[p].attrs));
        if size.Some? {
          var xs := ExtentList.ClipExtents(n.extents, Int64(size.value));
          n := n.(size := Int64(size.value), extents := xs);
        }
        nodes := nodes[p := n];
      } else if size.Some? {
        var attrs := AbsorbOverride(p, Attrs(420, 0, 0, 0, 0));
        nodes := nodes[p := Node(File, patch.Masked().On(attrs), Int64(size.value), "", [], true, p)];
      } else {
        var prior := if p in overrides then overrides[p] else NO_PATCH;
        overrides := overrides[p := patch.Masked().Over(prior)];
      }
    }

    method DeleteSubtree(dir: Path)
      modifies this`nodes, this`redirects, this`whiteouts, this`overrides
      ensures View() == Cleared(old(View()), dir)
    {
      nodes := DeleteKeys(nodes, dir);
      redirects := DeleteKeys(redirects, dir);
      whiteouts := DeletePaths(whiteouts, dir);
      overrides := DeleteKeys(overrides, dir);
    }

    method MoveSubtree(from: Path, to: Path)
      requires Movable(nodes.Keys, from, to) && Movable(redirects.Keys, from, to)
      requires PathsMovable(whiteouts, from, to) && Movable(overrides.Keys, from, to)
      modifies this`nodes, this`redirects, this`whiteouts, this`overrides
      ensures View() == MovedSubtree(old(View()), from, to)
    {
      nodes := MoveKeys(nodes, from, to);
      redirects := MoveKeys(redirects, from, to);
      whiteouts := MovePaths(whiteouts, from, to);
      overrides := MoveKeys(overrides, from, to);
    }

    /** A purely lower-backed source becomes a redirect; what was recorded below it moves along. */
    method RedirectSubtree(from: Path, to: Path)
      requires PathsMovable(whiteouts, from, to) && Movable(overrides.Keys, from, to)
      modifies this`redirects, this`whiteouts, this`overrides
      ensures View() == Overlay.Redirected(old(View()), from, to)
    {
      whiteouts := MovePaths(whiteouts, from, to);
      overrides := MoveKeys(overrides, from, to);
      redirects := redirects[to := from];
    }

    method ApplyRename(from: Path, to: Path, fromLower: bool)
      requires Valid() && Canonical(from) && Canonical(to) && (from == to || !Below(to, from))
      modifies this`nodes, this`redirects, this`whiteouts, this`overrides
      ensures View() == DoRename(old(View()), from, to, fromLower)
    {
      hide AtOrBelow, Below, SubtreePresent, Canonical, CleanKeys, Movable, PathsMovable, MovedSubtree,
        Overlay.Redirected, Cleared;
      if from == to {
        return;
      }
      ghost var s := View();
      NotBelow(to, from);
      DeleteSubtree(to);
      RenameReady(s, View(), from, to);
      var hasUpper := HasSubtree(from);
      if hasUpper {
        MoveSubtree(from, to);
      }
      if fromLower {
        whiteouts := whiteouts + {from};
      }
      if !hasUpper {
        RedirectSubtree(from, to);
      }
    }

    method ApplyOp(op: Op)
      requires Valid() && CheckOp(View(), op).None?
      modifies this`nodes, this`redirects, this`whiteouts, this`overrides
      ensures View() == DoOp(old(View()), op)
    {
      hide CleanKeys, DoWrite, DoRename, DoSetattr, HasChildren, SubtreePresent;
      match op {
        case SessionStart =>
        case Create(p, mode, uid, gid) => nodes := nodes[p := FreshNode(File, mode, uid, gid)];
        case Mkdir(p, mode, uid, gid) => nodes := nodes[p := FreshNode(Dir, mode, uid, gid)];
        case MakeSymlink(p, target, uid, gid) =>
          nodes := nodes[p := FreshNode(Symlink, 511, uid, gid).(target := target)];
        case Write(_, _, _, _, _, _, _, _, _, _) => ApplyWrite(op);
        case Unlink(p) => Remove(p);
        case Rmdir(p) => Remove(p);
        case Rename(from, to, fromLower) => ApplyRename(from, to, fromLower);
        case Setattr(p, patch, size) => ApplySetattr(p, patch, size);
        case UnknownOp =>
      }
    }

    /** Applying one event does exactly what the fold does, and changes nothing when it refuses. */
    method Apply(ev: Event) returns (err: Option<Error>)
      requires Valid()
      modifies this
      ensures Valid()
      ensures err.None? <==> old(seqLast) < ev.seqNo && SameLower(old(View()), ev) && Fits(old(View()), ev.op)
      ensures match Overlay.Apply(old(View()), ev)
              case Ok(s) => err == None && View() == s
              case Err(e) => err == Some(e) && View() == old(View())
    {
      AcceptedIff(View(), ev);
      hide Fits, SameLower;
      if ev.seqNo <= seqLast {
        return Some(SeqOutOfOrder);
      }
      err := Check(ev);
      if err.Some? {
        return;
      }
      ghost var s := View();
      ApplyKeepsClean(s, ev);
      hide CleanKeys, DoOp, CheckOp;
      if ev.lowerId != "" {
        lowerId := ev.lowerId;
      }
      ApplyOp(ev.op);
      seqLast := ev.seqNo;
    }

    // ----------------------------------------------------------------- queries

    /** The overlay children of a directory, and the names whiteouted there that no node shadows. */
    method Children(dir: Path) returns (kids: map<string, Node>, white: set<string>)
      ensures kids.Keys == Lookup.ChildNames(nodes.Keys, dir)
      ensures forall c :: c in kids ==> Join(dir, c) in nodes && kids[c] == nodes[Join(dir, c)]
      ensures white == Lookup.ChildNames(whiteouts, dir) - Lookup.ChildNames(nodes.Keys, dir)
    {
      var names := ChildNames(nodes.Keys, dir);
      Lookup.ChildNamesJoin(nodes.Keys, dir);
      kids := map c | c in names :: nodes[Join(dir, c)];
      white := ChildNames(whiteouts, dir);
      white := white - names;
    }

    /** The names renamed into dir, in dictionary order. */
    method Redirected(dir: Path) returns (names: seq<string>)
      ensures Names.Ascending(names) && Names.Elems(names) == Lookup.ChildNames(redirects.Keys, dir)
    {
      var found := ChildNames(redirects.Keys, dir);
      names := Names.SortedKeys(found);
    }

    /** Walks up the ancestors: covered by a whiteout at the path or above it. */
    method Hidden(path: Path) returns (b: bool)
      ensures b == Lookup.Hidden(whiteouts, path)
    {
      if path in whiteouts {
        return true;
      }
      var rest := path;
      while true
        invariant rest == path || Below(path, rest)
        invariant forall q :: q in whiteouts && AtOrBelow(path, q) ==> |q| < |rest|
        decreases |rest|
      {
        var i := LastSlash(rest);
        ghost var upper := rest;
        if i < 0 {
          forall q | q in whiteouts && AtOrBelow(path, q) ensures false { ShorterAncestor(path, upper, q); }
          return false;
        }
        rest := rest[..i];
        NextAncestor(path, upper, i);
        if rest in whiteouts {
          return true;
        }
        forall q | q in whiteouts && AtOrBelow(path, q) ensures |q| < |rest| {
          ShorterAncestor(path, upper, q);
          if |q| == |rest| { SharedDescendant(path, q, rest); }
        }
      }
    }

    /** Walks up to the deepest redirected ancestor and rewrites that prefix. */
    method LowerPath(rel: Path) returns (lower: Path, applied: bool)
      ensures lower == Lookup.LowerPath(redirects, rel)
      ensures applied <==> exists q :: q in redirects && AtOrBelow(rel, q)
    {
      if rel in redirects {
        Lookup.LowerPathBy(redirects, rel, rel);
        assert rel[|rel|..] == "" && redirects[rel] + "" == redirects[rel];
        return redirects[rel], true;
      }
      var rest := rel;
      while true
        invariant rest == rel || Below(rel, rest)
        invariant forall q :: q in redirects && AtOrBelow(rel, q) ==> |q| < |rest|
        decreases |rest|
      {
        var i := LastSlash(rest);
        ghost var upper := rest;
        if i < 0 {
          forall q | q in redirects && AtOrBelow(rel, q) ensures false { ShorterAncestor(rel, upper, q); }
          Lookup.LowerPathNone(redirects, rel);
          return rel, false;
        }
        rest := rest[..i];
        NextAncestor(rel, upper, i);
        forall q | q in redirects && AtOrBelow(rel, q) ensures |q| <= |rest| {
          ShorterAncestor(rel, upper, q);
        }
        if rest in redirects {
          Lookup.LowerPathBy(redirects, rel, rest);
          return redirects[rest] + rel[i..], true;
        }
        forall q | q in redirects && AtOrBelow(rel, q) ensures |q| < |rest| {
          if |q| == |rest| { SharedDescendant(rel, q, rest); }
        }
      }
    }
  }

  /** The child names directly below dir among a map's keys, visited in any order. */
  method ChildNames(keys: set<Path>, dir: Path) returns (names: set<string>)
    ensures names == Lookup.ChildNames(keys, dir)
  {
    names := {};
    var todo := keys;
    while todo != {}
      invariant todo <= keys
      invariant names == Lookup.ChildNames(keys - todo, dir)
    {
      var p :| p in todo;
      var c := Lookup.ChildName(p, dir);
      Lookup.ChildNamesAdd(keys - todo, dir, p);
      assert keys - (todo - {p}) == (keys - todo) + {p};
      if c.Some? {
        names := names + {c.value};
      }
      todo := todo - {p};
    }
    assert keys - todo == keys;
  }

  /** The parent of an ancestor-or-self is an ancestor. */
  lemma NextAncestor(path: Path, rest: Path, i: int)
    requires (rest == path || Below(path, rest)) && i == LastSlash(rest) && 0 <= i
    ensures Below(path, rest[..i])
  {
    assert rest == path[..|rest|];
    assert path[..i] == rest[..i];
  }

  /** Every strictly shorter ancestor of path is at or above the parent of rest. */
  lemma ShorterAncestor(path: Path, rest: Path, q: Path)
    requires (rest == path || Below(path, rest)) && AtOrBelow(path, q) && |q| < |rest|
    ensures |q| <= LastSlash(rest)
  {
    assert rest == path[..|rest|];
    assert rest[|q|] == path[|q|] == '/';
  }

  lemma ApplyKeepsClean(s: State, ev: Event)
    requires CleanKeys(s) && Overlay.Check(s, ev).None?
    ensures CleanKeys(Bind(s, ev)) && CheckOp(Bind(s, ev), ev.op).None?
    ensures CleanKeys(DoOp(Bind(s, ev), ev.op).(seqLast := ev.seqNo))
  {
    hide Canonical, DoOp;
    SameMaps(s, Bind(s, ev), ev.op);
    OpClean(Bind(s, ev), ev.op);
  }

  lemma NotBelow(p: Path, q: Path)
    requires p != q && !Below(p, q)
    ensures !AtOrBelow(p, q)
  {
  }

  /** After the destination is cleared every map may be re-keyed, in any visiting order. */
  lemma RenameReady(s: State, c: State, from: Path, to: Path)
    requires CleanKeys(s) && c == Cleared(s, to) && Canonical(from) && !AtOrBelow(to, from)
    ensures Movable(c.nodes.Keys, from, to) && Movable(c.redirects.Keys, from, to)
    ensures Movable(c.overrides.Keys, from, to)
    ensures PathsMovable(c.whiteouts, from, to) && PathsMovable(c.whiteouts + {from}, from, to)
  {
    if AtOrBelow(from, to) {
      forall p | p in c.whiteouts + {from} ensures !Below(p, from) {
        if Below(p, from) { AtOrBelowTransitive(p, from, to); }
      }
    }
  }
}
