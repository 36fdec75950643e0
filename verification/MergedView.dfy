/**
 What the mount shows: the overlay over a read-only lower tree. The lower tree
 is a fixed function from paths to what fstatat, readdir and pread answer; the
 root, "." in the system calls, is "" here.
 */
module MergedView {
  import opened Machine
  import opened Paths
  import opened Overlay
  import opened Lookup
  import opened Names

  type Byte = x: int | 0 <= x < 256

  datatype FileType = TypeFile | TypeDir | TypeSymlink | TypeOther

  datatype Stat = Stat(ftype: FileType, attrs: Attrs, size: nat)

  /** Missing is ENOENT or ENOTDIR; Unreadable is any other failure. */
  datatype Probe = Found(stat: Stat) | Missing | Unreadable
  datatype Listing = Entries(names: seq<string>) | NoDirectory | Unlistable
  datatype Contents = Readable(data: seq<Byte>) | NoFile | ReadError

  datatype Lower = Lower(stat: Path -> Probe, list: Path -> Listing, read: Path -> Contents)

  datatype Errno = EIO | ENOTSUP | ENOENT

  /** One path resolved in the merged view; kind None means absent. */
  datatype Entry = Entry(kind: Option<Kind>, upper: Option<Node>, lower: Option<Stat>, attrs: Option<Attrs>, size: int)

  const ABSENT := Entry(None, None, None, None, 0)

  function LowerLocation(s: State, rel: Path): Path {
    if rel == "" then "" else LowerPath(s.redirects, rel)
  }

  function FallthroughSource(rel: Path, n: Node): Path {
    if n.fallthrough && n.lowerRel != "" then n.lowerRel else rel
  }

  function LowerSize(s: State, tree: Lower, rel: Path): Result<int, Errno> {
    match tree.stat(LowerLocation(s, rel))
    case Found(st) => Ok(st.size)
    case Missing => Ok(0)
    case Unreadable => Err(EIO)
  }

  function SizeOfNode(s: State, tree: Lower, rel: Path, n: Node): Result<int, Errno> {
    if n.kind != File then Ok(0)
    else if n.size >= 0 then Ok(n.size)
    else
      var end := Extents.ExtentEnd(n.extents);
      if !n.fallthrough then Ok(end)
      else match LowerSize(s, tree, FallthroughSource(rel, n))
        case Ok(ls) => Ok(Max(end, ls))
        case Err(e) => Err(e)
  }

  function KindOf(t: FileType): Option<Kind> {
    match t
    case TypeFile => Some(File)
    case TypeDir => Some(Dir)
    case TypeSymlink => Some(Symlink)
    case TypeOther => None
  }

  /** A lower entry with the session's override on top; directories report no access time. */
  function FoundEntry(patch: Option<Patch>, st: Stat): Result<Entry, Errno> {
    if KindOf(st.ftype).None? then Err(ENOTSUP)
    else
      var a := if patch.Some? then patch.value.On(st.attrs.Shown()) else st.attrs.Shown();
      var attrs := if st.ftype == TypeDir then a.(atime := 0) else a;
      Ok(Entry(KindOf(st.ftype), None, Some(st), Some(attrs), if st.ftype == TypeFile then st.size else 0))
  }

  /** An overlay node of the given size, with what its lower location holds. */
  function NodeEntry(n: Node, twin: Option<Stat>, size: Result<int, Errno>): Result<Entry, Errno> {
    match size
    case Ok(z) => Ok(Entry(Some(n.kind), Some(n), twin, Some(n.attrs.Shown()), z))
    case Err(e) => Err(e)
  }

  function Get<V>(m: map<Path, V>, at: Option<Path>): Option<V> {
    if at.Some? && at.value in m then Some(m[at.value]) else None
  }

  /** Overlay node first, then whiteouts, then the lower entry with overrides on top. */
  function Resolve(s: State, tree: Lower, rel: Path): Result<Entry, Errno> {
    if rel !in s.nodes && Hidden(s.whiteouts, rel) then Ok(ABSENT)
    else match tree.stat(LowerLocation(s, rel))
      case Unreadable => Err(EIO)
      case Missing =>
        if rel in s.nodes then NodeEntry(s.nodes[rel], None, SizeOfNode(s, tree, rel, s.nodes[rel])) else Ok(ABSENT)
      case Found(st) =>
        if rel in s.nodes then NodeEntry(s.nodes[rel], Some(st), SizeOfNode(s, tree, rel, s.nodes[rel]))
        else FoundEntry(Get(s.overrides, Some(rel)), st)
  }

  predicate Present(s: State, tree: Lower, rel: Path) {
    var e := Resolve(s, tree, rel);
    e.Ok? && e.value.kind.Some?
  }

  // ------------------------------------------------------------------ listing

  /** The lower names a directory contributes before whiteouts and nodes are considered. */
  function LowerNames(s: State, tree: Lower, dir: Path): Result<seq<string>, Errno> {
    if Hidden(s.whiteouts, dir) then Ok([])
    else match tree.list(LowerLocation(s, dir))
      case Entries(ns) => Ok(ns)
      case NoDirectory => Ok([])
      case Unlistable => Err(EIO)
  }

  /** The name is in the merged listing, given the lower names. */
  predicate Listed(s: State, dir: Path, lowerNames: seq<string>, c: string) {
    || c in ChildNames(s.nodes.Keys, dir)
    || (c !in ChildNames(s.whiteouts, dir) && (c in lowerNames || c in ChildNames(s.redirects.Keys, dir)))
  }

  ghost predicate IsListing(s: State, tree: Lower, dir: Path, names: seq<string>) {
    && Distinct(names) && LowerNames(s, tree, dir).Ok?
    && forall c :: c in names <==> Listed(s, dir, LowerNames(s, tree, dir).value, c)
  }

  function MergedEmpty(s: State, tree: Lower, dir: Path): Result<bool, Errno> {
    var white := ChildNames(s.whiteouts, dir) - ChildNames(s.nodes.Keys, dir);
    if ChildNames(s.nodes.Keys, dir) != {} then Ok(false)
    else if exists c | c in ChildNames(s.redirects.Keys, dir) :: c !in white then Ok(false)
    else if Hidden(s.whiteouts, dir) then Ok(true)
    else match tree.list(LowerLocation(s, dir))
      case NoDirectory => Ok(true)
      case Unlistable => Err(EIO)
      case Entries(ns) => Ok(forall c | c in ns :: c in white)
  }

  // --------------------------------------------------------------- agreement

  /** readdir and fstatat of the lower tree tell one story, where the directory can be listed at all. */
  ghost predicate Consistent(tree: Lower) {
    && (forall d, c :: IsName(c) && !tree.list(d).Unlistable? ==>
          (!tree.stat(Join(d, c)).Missing? <==> tree.list(d).Entries? && c in tree.list(d).names))
    && (forall d :: tree.list(d).Entries? ==>
          Distinct(tree.list(d).names) && forall c :: c in tree.list(d).names ==> IsName(c))
  }

  /** The lower entry can be inspected and, if there is one, has a kind the mount supports. */
  predicate HealthyAt(tree: Lower, at: Path) {
    !tree.stat(at).Unreadable? && (tree.stat(at).Found? ==> tree.stat(at).stat.ftype != TypeOther)
  }

  /** What a lookup of rel consults can be inspected. */
  predicate Inspectable(s: State, tree: Lower, rel: Path) {
    if rel in s.nodes
    then !tree.stat(LowerLocation(s, rel)).Unreadable? && SizeOfNode(s, tree, rel, s.nodes[rel]).Ok?
    else HealthyAt(tree, LowerLocation(s, rel))
  }

  predicate Absent(s: State, tree: Lower, rel: Path) {
    var e := Resolve(s, tree, rel);
    e.Ok? && e.value.kind.None?
  }

  /** A redirect target whose source is gone, or that lies below a whiteouted directory. */
  predicate DanglingRedirect(s: State, tree: Lower, dir: Path, c: string) {
    var p := Join(dir, c);
    && p in s.redirects && p !in s.nodes && p !in s.whiteouts
    && (Hidden(s.whiteouts, dir) || tree.stat(s.redirects[p]).Missing?)
  }

  lemma HiddenChild(s: State, dir: Path, c: string)
    requires IsName(c) && CleanKeys(s)
    ensures Hidden(s.whiteouts, Join(dir, c)) <==> Join(dir, c) in s.whiteouts || Hidden(s.whiteouts, dir)
  {
    hide Canonical, IsName;
    var p := Join(dir, c);
    forall q | q in s.whiteouts ensures AtOrBelow(p, q) <==> q == p || AtOrBelow(dir, q) {
      EdgeSlashes(q);
      AboveChild(dir, c, q);
    }
    assert p in s.whiteouts ==> AtOrBelow(p, p);
  }

  lemma ChildLocation(s: State, dir: Path, c: string)
    requires IsName(c) && CleanKeys(s)
    ensures LowerLocation(s, Join(dir, c)) ==
            if Join(dir, c) in s.redirects then s.redirects[Join(dir, c)] else Join(LowerLocation(s, dir), c)
  {
    var p := Join(dir, c);
    assert "" !in s.redirects by { EdgeSlashes(""); }
    if p in s.redirects {
      LowerPathBy(s.redirects, p, p);
      assert p[|p|..] == "" && s.redirects[p] + "" == s.redirects[p];
    } else if dir == "" {
      LowerPathNone(s.redirects, p) by {
        forall q | q in s.redirects ensures !AtOrBelow(p, q) { AboveChild(dir, c, q); }
      }
    } else {
      LowerPathChild(s.redirects, dir, c);
      LowerPathNonEmpty(s, dir);
    }
  }

  lemma LowerPathNonEmpty(s: State, rel: Path)
    requires CleanKeys(s) && rel != ""
    ensures LowerPath(s.redirects, rel) != ""
  {
    match Deepest(s.redirects, rel, |rel|)
    case Some(q) => EdgeSlashes(s.redirects[q]);
    case None =>
  }

  lemma ResolveCases(s: State, tree: Lower, rel: Path)
    requires Inspectable(s, tree, rel)
    ensures Resolve(s, tree, rel).Ok?
    ensures Present(s, tree, rel) <==>
            rel in s.nodes || (!Hidden(s.whiteouts, rel) && tree.stat(LowerLocation(s, rel)).Found?)
  {
    hide Hidden, LowerLocation, SizeOfNode;
  }

  /** A path with no overlay node is absent, or fails, exactly by what its lower entry is. */
  lemma LowerLookup(s: State, tree: Lower, rel: Path)
    requires rel !in s.nodes
    ensures var at := tree.stat(LowerLocation(s, rel));
            && (Absent(s, tree, rel) <==> Hidden(s.whiteouts, rel) || at.Missing?)
            && (Resolve(s, tree, rel) == Err(EIO) <==> !Hidden(s.whiteouts, rel) && at.Unreadable?)
            && (Resolve(s, tree, rel) == Err(ENOTSUP) <==>
                  !Hidden(s.whiteouts, rel) && at.Found? && at.stat.ftype == TypeOther)
  {
    hide Hidden, LowerLocation;
  }

  /** Resolution reads no more of the state than this. */
  lemma ResolveFrame(s: State, r: State, tree: Lower, x: Path)
    requires Get(r.nodes, Some(x)) == Get(s.nodes, Some(x)) && Get(r.overrides, Some(x)) == Get(s.overrides, Some(x))
    requires Hidden(r.whiteouts, x) == Hidden(s.whiteouts, x) && LowerLocation(r, x) == LowerLocation(s, x)
    requires x in s.nodes && s.nodes[x].fallthrough && s.nodes[x].size < 0 ==>
      var source := FallthroughSource(x, s.nodes[x]); LowerLocation(r, source) == LowerLocation(s, source)
    ensures Resolve(r, tree, x) == Resolve(s, tree, x)
  {
    hide Hidden, LowerLocation, FallthroughSource;
  }

  /** What a visible lower entry resolves to, field by field: overridden fields win, the rest is the stat's. */
  lemma LowerEntryFields(s: State, tree: Lower, rel: Path, st: Stat)
    requires rel !in s.nodes && !Hidden(s.whiteouts, rel) && tree.stat(LowerLocation(s, rel)) == Found(st)
    ensures Resolve(s, tree, rel).Ok? <==> st.ftype == TypeFile || st.ftype == TypeDir || st.ftype == TypeSymlink
    ensures Resolve(s, tree, rel).Ok? ==>
      var e := Resolve(s, tree, rel).value;
      && (e.kind == Some(File) <==> st.ftype == TypeFile)
      && (e.kind == Some(Dir) <==> st.ftype == TypeDir)
      && (e.kind == Some(Symlink) <==> st.ftype == TypeSymlink)
      && e.upper == None && e.lower == Some(st) && e.size == if st.ftype == TypeFile then st.size else 0
    ensures Resolve(s, tree, rel).Ok? ==>
      var o := if rel in s.overrides then s.overrides[rel] else Patch(None, None, None, None, None);
      Resolve(s, tree, rel).value.attrs == Some(Attrs(
        if o.mode.Some? then o.mode.value else st.attrs.mode % 4096,
        if o.uid.Some? then o.uid.value else st.attrs.uid,
        if o.gid.Some? then o.gid.value else st.attrs.gid,
        if st.ftype == TypeDir then 0 else if o.atime.Some? then o.atime.value else st.attrs.atime,
        if o.mtime.Some? then o.mtime.value else st.attrs.mtime))
  {
    hide Hidden, LowerLocation;
  }

  /** What a path with an overlay node resolves to: the node's own kind, attributes and extents, whatever lies below. */
  lemma NodeEntryFields(s: State, tree: Lower, rel: Path)
    requires rel in s.nodes
    ensures var n, at := s.nodes[rel], LowerLocation(s, rel);
            var source := LowerLocation(s, if n.fallthrough && n.lowerRel != "" then n.lowerRel else rel);
            var derived := n.kind == File && n.size < 0;
            var end := Extents.ExtentEnd(n.extents);
            var r := Resolve(s, tree, rel);
            && (r.Err? <==> tree.stat(at).Unreadable? || (derived && n.fallthrough && tree.stat(source).Unreadable?))
            && (r.Err? ==> r.error == EIO)
            && (r.Ok? ==>
                  && r.value.kind == Some(n.kind) && r.value.upper == Some(n)
                  && (r.value.lower == if tree.stat(at).Found? then Some(tree.stat(at).stat) else None)
                  && r.value.attrs ==
                     Some(Attrs(n.attrs.mode % 4096, n.attrs.uid, n.attrs.gid, n.attrs.atime, n.attrs.mtime))
                  && (n.kind != File ==> r.value.size == 0)
                  && (n.kind == File && 0 <= n.size ==> r.value.size == n.size)
                  && (derived && !n.fallthrough ==> r.value.size == end)
                  && (derived && n.fallthrough && tree.stat(source).Found? ==>
                        r.value.size == if end < tree.stat(source).stat.size then tree.stat(source).stat.size else end)
                  && (derived && n.fallthrough && tree.stat(source).Missing? ==>
                        r.value.size == if end < 0 then 0 else end))
  {
    hide Hidden, LowerLocation, Extents.ExtentEnd;
  }

  /**
   Readdir and lookup agree on a child, except on a dangling redirect, which is listed and absent. A
   listed child whose lower entry has an unsupported kind or cannot be inspected fails on lookup.
   */
  lemma ReaddirAgreesWithLookup(s: State, tree: Lower, dir: Path, c: string)
    requires Consistent(tree) && CleanKeys(s) && IsName(c)
    requires LowerNames(s, tree, dir).Ok?
    ensures Present(s, tree, Join(dir, c)) ==> Listed(s, dir, LowerNames(s, tree, dir).value, c)
    ensures (Listed(s, dir, LowerNames(s, tree, dir).value, c) <==> !Absent(s, tree, Join(dir, c)))
            <==> !DanglingRedirect(s, tree, dir, c)
    ensures Inspectable(s, tree, Join(dir, c)) ==>
      ((Listed(s, dir, LowerNames(s, tree, dir).value, c) <==> Present(s, tree, Join(dir, c)))
       <==> !DanglingRedirect(s, tree, dir, c))
  {
    var p, at := Join(dir, c), LowerLocation(s, dir);
    IsChild(s.nodes.Keys, dir, c);
    IsChild(s.whiteouts, dir, c);
    IsChild(s.redirects.Keys, dir, c);
    HiddenChild(s, dir, c);
    ChildLocation(s, dir, c);
    if p in s.nodes { NodeNotAbsent(s, tree, p); } else { LowerLookup(s, tree, p); }
    if Inspectable(s, tree, p) { ResolveCases(s, tree, p); }
    assert !tree.list(at).Unlistable? ==>
      (!tree.stat(Join(at, c)).Missing? <==> tree.list(at).Entries? && c in tree.list(at).names);
    hide Resolve, Hidden, LowerLocation, ChildNames, Join, IsName, Consistent, CleanKeys, Inspectable;
  }

  lemma NodeNotAbsent(s: State, tree: Lower, rel: Path)
    requires rel in s.nodes
    ensures !Absent(s, tree, rel)
  {
    hide Hidden, LowerLocation, SizeOfNode;
  }

  /** Everything listed is a real name, so the child lemma speaks of every listed entry. */
  lemma ListedIsName(s: State, tree: Lower, dir: Path, c: string)
    requires Consistent(tree) && CleanKeys(s) && LowerNames(s, tree, dir).Ok?
    requires Listed(s, dir, LowerNames(s, tree, dir).value, c)
    ensures IsName(c)
  {
    if c in ChildNames(s.nodes.Keys, dir) {
      ChildIsName(s.nodes.Keys, dir, c);
    } else if c in ChildNames(s.redirects.Keys, dir) {
      ChildIsName(s.redirects.Keys, dir, c);
    }
  }

  lemma ChildIsName(keys: set<Path>, dir: Path, c: string)
    requires AllClean(keys) && c in ChildNames(keys, dir)
    ensures IsName(c)
  {
    var p :| p in keys && ChildName(p, dir) == Some(c);
    assert FirstSlash(c) == |c|;
    assert Components(c) == [c];
    if dir != "" {
      assert p == dir + "/" + c;
      CanonicalJoin(dir, c);
    }
    assert c in Components(c);
  }

  /** rmdir's emptiness test is the emptiness of the listing, and fails only when the listing does. */
  lemma EmptyAgreesWithListing(s: State, tree: Lower, dir: Path)
    ensures MergedEmpty(s, tree, dir).Err? <==>
            LowerNames(s, tree, dir).Err? && forall c :: !Listed(s, dir, [], c)
    ensures LowerNames(s, tree, dir).Err? && MergedEmpty(s, tree, dir).Ok? ==> !MergedEmpty(s, tree, dir).value
    ensures MergedEmpty(s, tree, dir).Ok? && LowerNames(s, tree, dir).Ok? ==>
      (MergedEmpty(s, tree, dir).value <==> forall c :: !Listed(s, dir, LowerNames(s, tree, dir).value, c))
  {
    hide ChildNames, Hidden, LowerLocation;
    if LowerNames(s, tree, dir).Err? && MergedEmpty(s, tree, dir).Ok? {
      if ChildNames(s.nodes.Keys, dir) != {} {
        var c :| c in ChildNames(s.nodes.Keys, dir);
        assert Listed(s, dir, [], c);
      } else {
        var c :| c in ChildNames(s.redirects.Keys, dir) && c !in ChildNames(s.whiteouts, dir);
        assert Listed(s, dir, [], c);
      }
    }
    if MergedEmpty(s, tree, dir).Ok? && LowerNames(s, tree, dir).Ok? && !MergedEmpty(s, tree, dir).value {
      var names := LowerNames(s, tree, dir).value;
      var white := ChildNames(s.whiteouts, dir) - ChildNames(s.nodes.Keys, dir);
      if ChildNames(s.nodes.Keys, dir) != {} {
        var c :| c in ChildNames(s.nodes.Keys, dir);
        assert Listed(s, dir, names, c);
      } else if c :| c in ChildNames(s.redirects.Keys, dir) && c !in white {
        assert Listed(s, dir, names, c);
      } else {
        var c :| c in names && c !in white;
        assert Listed(s, dir, names, c);
      }
    }
  }

  // ----------------------------------------------------------------- removal

  /**
   After unlink or rmdir the path is still visible exactly when an overlay node shadowed a live
   lower twin: removing the node records no whiteout.
   */
  lemma RemovedUnlessShadowed(s: State, tree: Lower, p: Path)
    requires HealthyAt(tree, LowerLocation(s, p))
    ensures Present(DoRemove(s, p), tree, p) <==>
            p in s.nodes && !Hidden(s.whiteouts, p) && tree.stat(LowerLocation(s, p)).Found?
  {
    hide LowerPath, Resolve;
    ResolveCases(DoRemove(s, p), tree, p);
    if p !in s.nodes { assert AtOrBelow(p, p) && p in DoRemove(s, p).whiteouts; }
  }

  /** Removing a path changes no entry outside its subtree. */
  lemma RemovalLeavesOthers(s: State, tree: Lower, p: Path, x: Path)
    requires !AtOrBelow(x, p)
    ensures Resolve(DoRemove(s, p), tree, x) == Resolve(s, tree, x)
  {
    hide AtOrBelow, LowerPath;
    assert x != p by { assert AtOrBelow(p, p) by { SelfBelow(p); } }
    assert Hidden(DoRemove(s, p).whiteouts, x) <==> Hidden(s.whiteouts, x);
  }
}
