/**
 One small lower tree and the shortest runs on it that show where a natural expectation fails. Every
 state is reached by replaying events the mount emits; the exact conditions are theorems elsewhere.
 */
module Witnesses {
  import opened Machine
  import opened Paths
  import opened Names
  import opened Extents
  import opened Overlay
  import opened EventMeaning
  import opened Lookup
  import opened MergedView
  import opened Renames
  import opened RenamedView
  import opened LowerRenames
  import opened FileBytes
  import opened FileRuns
  import opened FileAttrs
  import opened RenamedFiles
  import opened Images
  import opened EventLog
  import opened Sessions
  import Cluster
  import opened LateBranches

  const ID := "low"
  const PLAIN := Attrs(420, 0, 0, 0, 0)

  /** Files "a" (5 5 5) and "b" (3 3), and an empty directory "d". */
  const TREE := Lower(
    p => if p == "a" then Found(Stat(TypeFile, PLAIN, 3))
         else if p == "b" then Found(Stat(TypeFile, PLAIN, 2))
         else if p == "d" then Found(Stat(TypeDir, PLAIN, 0))
         else Missing,
    p => if p == "" then Entries(["a", "b", "d"]) else if p == "d" then Entries([]) else NoDirectory,
    p => if p == "a" then Readable([5, 5, 5]) else if p == "b" then Readable([3, 3]) else NoFile)

  const PATCHED := Node(File, PLAIN, -1, "", [Extent(0, 1, "x", 0)], true, "b")

  /** The event of a one-byte write at the start of "b". */
  const PATCH_B := Write("b", 0, 1, "x", 0, false, 420, true, 0, 0)

  const AFTER_PATCH := State(ID, map["b" := PATCHED], {}, map[], map[], 1)

  function Ev(n: nat, op: Op): Event { Event(n, ID, op) }

  // ------------------------------------------------------------------ helpers

  lemma Letters()
    ensures Canonical("a") && Canonical("b") && Canonical("c") && Canonical("d") && Canonical("n")
  {
    forall c: string | |c| == 1 && c[0] != '/' && c[0] != '.' ensures Canonical(c) { NameIsCanonical(c); }
    assert |"a"| == |"b"| == |"c"| == |"d"| == |"n"| == 1;
  }

  lemma NestedLetters()
    ensures Canonical("d/a") && Join("d", "a") == "d/a" && Below("d/a", "d") && IsName("a")
  {
    Letters();
    CanonicalJoin("d", "a");
    assert "d" + "/" + "a" == "d/a";
    assert "d/a"[..1] == "d";
  }

  lemma ReplayTwo(s: State, e: Event, t: State, f: Event, u: State)
    requires Apply(s, e) == Ok(t) && Apply(t, f) == Ok(u)
    ensures Replay(s, [e, f]) == Ok(u)
  {
    hide Apply;
    assert [e, f][1..] == [f];
    ReplayOne(t, f);
  }

  lemma MovedSingle<V>(p: Path, q: Path, v: V)
    ensures Moved(map[p := v], p, q) == map[q := v]
  {
    assert Rebase(p, p, q) == q && Origin(q, p, q) == p;
  }

  lemma MovedNothing<V>(from: Path, to: Path)
    ensures Moved<V>(map[], from, to) == map[] && MovedSet({}, from, to) == {}
  {
    assert Moved<V>(map[], from, to).Keys == {};
  }

  lemma TreeChild(d: Path, c: string)
    requires IsName(c)
    ensures !TREE.stat(Join(d, c)).Missing? <==> TREE.list(d).Entries? && c in TREE.list(d).names
  {
    if d != "" { assert |Join(d, c)| > 1; }
  }

  lemma TreeNames()
    ensures forall d :: TREE.list(d).Entries? ==>
              Distinct(TREE.list(d).names) && forall c :: c in TREE.list(d).names ==> IsName(c)
  {
    assert Distinct(["a", "b", "d"]) by { assert ["a", "b", "d"][1..] == ["b", "d"] && ["b", "d"][1..] == ["d"]; }
  }

  /** The lower tree is one the agreement theorem speaks of. */
  lemma TreeIsOrdinary()
    ensures Consistent(TREE)
  {
    hide IsName, Join;
    TreeNames();
    forall d, c | IsName(c)
      ensures !TREE.stat(Join(d, c)).Missing? <==> TREE.list(d).Entries? && c in TREE.list(d).names
    {
      TreeChild(d, c);
    }
  }

  lemma TreeIsHealthy(p: Path)
    ensures HealthyAt(TREE, p)
  {
  }

  /** A one-byte write through a handle on the lower file "b". */
  lemma PatchApplies()
    ensures WriteOp(EMPTY, TREE, "b", 0, [9], "x") == Ok(PATCH_B)
    ensures Apply(EMPTY, Ev(1, PATCH_B)) == Ok(AFTER_PATCH)
  {
    Letters();
    hide Canonical, DoRename, DoSetattr;
    LowerPathNone(EMPTY.redirects, "b");
    var e := Extent(0, 1, "x", 0);
    assert Insert([], e) == [e] by { assert [] + [e] == [e] && [e][1..] == []; }
  }

  // ------------------------------------------------------------------- unlink

  /** Unlinking a written lower file brings the lower file back. */
  lemma UnlinkUncovers(store: Store)
    ensures WriteOp(EMPTY, TREE, "b", 0, [9], "x") == Ok(PATCH_B)
    ensures var s := State(ID, map[], {}, map[], map[], 2);
            && Replay(EMPTY, [Ev(1, PATCH_B), Ev(2, Unlink("b"))]) == Ok(s)
            && Present(s, TREE, "b") && FileData(s, TREE, store, "b") == [3, 3]
  {
    var s := State(ID, map[], {}, map[], map[], 2);
    Letters();
    PatchApplies();
    assert Apply(AFTER_PATCH, Ev(2, Unlink("b"))) == Ok(s) by {
      hide Canonical, DoRename, DoSetattr, DoWrite;
      assert map["b" := PATCHED] - {"b"} == map[];
    }
    ReplayTwo(EMPTY, Ev(1, PATCH_B), AFTER_PATCH, Ev(2, Unlink("b")), s);
    LowerPathNone(s.redirects, "b");
  }

  // -------------------------------------------------------- dangling redirect

  const NEW_DIR := FreshNode(Dir, 493, 0, 0)
  const AFTER_RMDIR := State(ID, map[], {"d"}, map[], map[], 1)
  const AFTER_MKDIR := State(ID, map["d" := NEW_DIR], {"d"}, map[], map[], 2)
  const AFTER_MOVE_IN := State(ID, map["d" := NEW_DIR], {"d", "a"}, map[], map["d/a" := "a"], 3)

  lemma MoveInClears()
    ensures Cleared(AFTER_MKDIR, "d/a") == AFTER_MKDIR && !SubtreePresent(AFTER_MKDIR, "a")
  {
    var s := AFTER_MKDIR;
    assert Pruned(s.nodes, "d/a") == s.nodes && PrunedSet(s.whiteouts, "d/a") == s.whiteouts;
    assert Pruned(s.redirects, "d/a") == map[] && Pruned(s.overrides, "d/a") == map[];
  }

  lemma MoveInRedirects()
    ensures Redirected(WithWhiteout(AFTER_MKDIR, "a", true), "a", "d/a") == AFTER_MOVE_IN.(seqLast := 2)
  {
    MovedSetIdleBelow({"d", "a"}, "a", "d/a");
    MovedNothing<Patch>("a", "d/a");
    hide Moved, MovedSet;
  }

  lemma MoveIn()
    ensures Apply(AFTER_MKDIR, Ev(3, Rename("a", "d/a", true))) == Ok(AFTER_MOVE_IN)
  {
    Letters();
    NestedLetters();
    hide Canonical, Cleared, SubtreePresent, Redirected;
    MoveInClears();
    MoveInRedirects();
  }

  lemma RemakeDirectory()
    ensures Apply(EMPTY, Ev(1, Rmdir("d"))) == Ok(AFTER_RMDIR)
    ensures Apply(AFTER_RMDIR, Ev(2, Mkdir("d", 493, 0, 0))) == Ok(AFTER_MKDIR)
  {
    Letters();
    hide Canonical, DoRename, DoSetattr, DoWrite, HasChildren;
    assert EMPTY.whiteouts + {"d"} == {"d"};
  }

  /** Remove a lower directory, make it anew, move a lower file in: the file is listed and cannot be found. */
  lemma MovedInFileVanishes()
    ensures Replay(EMPTY, [Ev(1, Rmdir("d")), Ev(2, Mkdir("d", 493, 0, 0)), Ev(3, Rename("a", "d/a", true))]) ==
            Ok(AFTER_MOVE_IN)
    ensures MergedEmpty(EMPTY, TREE, "d") == Ok(true) && Present(AFTER_MKDIR, TREE, "a")
    ensures DanglingRedirect(AFTER_MOVE_IN, TREE, "d", "a")
    ensures Listed(AFTER_MOVE_IN, "d", [], "a") && LowerNames(AFTER_MOVE_IN, TREE, "d") == Ok([])
    ensures !Present(AFTER_MOVE_IN, TREE, "d/a") && !Present(AFTER_MOVE_IN, TREE, "a")
  {
    hide Apply, Resolve, Canonical, ChildNames, LowerPath;
    RemakeDirectory();
    MoveIn();
    var e, f, g := Ev(1, Rmdir("d")), Ev(2, Mkdir("d", 493, 0, 0)), Ev(3, Rename("a", "d/a", true));
    assert [e, f, g][1..] == [f, g];
    ReplayTwo(AFTER_RMDIR, f, AFTER_MKDIR, g, AFTER_MOVE_IN);
    TreeIsOrdinary();
    NestedLetters();
    VanishedEntries();
    BeforeVanishing();
  }

  lemma VanishedEntries()
    ensures DanglingRedirect(AFTER_MOVE_IN, TREE, "d", "a")
    ensures LowerNames(AFTER_MOVE_IN, TREE, "d") == Ok([]) && Listed(AFTER_MOVE_IN, "d", [], "a")
    ensures !Present(AFTER_MOVE_IN, TREE, "d/a") && !Present(AFTER_MOVE_IN, TREE, "a")
  {
    var s := AFTER_MOVE_IN;
    NestedLetters();
    TreeIsOrdinary();
    IsChild(s.whiteouts, "d", "a");
    IsChild(s.redirects.Keys, "d", "a");
    TreeIsHealthy(LowerLocation(s, "d/a"));
    TreeIsHealthy(LowerLocation(s, "a"));
    hide ChildNames, Resolve, LowerLocation, Consistent, HealthyAt;
    assert "d" in s.whiteouts && AtOrBelow("d", "d") && AtOrBelow("d/a", "d");
    assert "a" in s.whiteouts && AtOrBelow("a", "a");
    ResolveCases(s, TREE, "d/a");
    ResolveCases(s, TREE, "a");
  }

  lemma BeforeVanishing()
    ensures MergedEmpty(EMPTY, TREE, "d") == Ok(true) && Present(AFTER_MKDIR, TREE, "a")
  {
    TreeIsOrdinary();
    TreeIsHealthy(LowerLocation(AFTER_MKDIR, "a"));
    hide Resolve, LowerPath, Consistent, HealthyAt;
    LowerPathNone(EMPTY.redirects, "d");
    LowerPathNone(AFTER_MKDIR.redirects, "a");
    assert ChildNames({}, "d") == {};
    assert !AtOrBelow("a", "d");
    ResolveCases(AFTER_MKDIR, TREE, "a");
  }

  // -------------------------------------------------------------- byte files

  const NEW_FILE := FreshNode(File, 420, 0, 0)
  const AFTER_CREATE := State(ID, map["n" := NEW_FILE], {}, map[], map[], 1)

  lemma NewFileIsRegular(store: Store)
    ensures Apply(EMPTY, Ev(1, Create("n", 420, 0, 0))) == Ok(AFTER_CREATE)
    ensures RegularFile(AFTER_CREATE, TREE, store, "n")
    ensures FileData(AFTER_CREATE, TREE, store, "n") == [] && BaseOf(AFTER_CREATE, TREE, "n") == []
  {
    Letters();
    hide Canonical, DoRename, DoSetattr, DoWrite, LowerPath;
    LowerPathNone(AFTER_CREATE.redirects, "n");
  }

  /** An empty write past the end of a new file makes it longer. */
  lemma EmptyWriteExtends(store: Store)
    requires "e" !in store
    ensures Replay(EMPTY, [Ev(1, Create("n", 420, 0, 0))]) == Ok(AFTER_CREATE)
    ensures var ops := [WriteAt(2, [], "e")];
            && DataAfter(AFTER_CREATE, TREE, store, "n", ops, 1) == Some([0, 0])
            && PosixRun(FileData(AFTER_CREATE, TREE, store, "n"), ops) == []
  {
    hide RegularFile, FileData, BaseOf, RunOps, Apply, StoreRun;
    NewFileIsRegular(store);
    ReplayOne(EMPTY, Ev(1, Create("n", 420, 0, 0)));
    var ops: seq<FileOp> := [WriteAt(2, [], "e")];
    assert ops[1..] == [] && ops[..1] == ops;
    RunIsByteRun(AFTER_CREATE, TREE, store, "n", ops);
    assert Overwrite([], [], 2, []) == [0, 0];
  }

  lemma LowerFileIsRegular(store: Store)
    ensures RegularFile(EMPTY, TREE, store, "b")
    ensures FileData(EMPTY, TREE, store, "b") == [3, 3] && BaseOf(EMPTY, TREE, "b") == [3, 3]
  {
    Letters();
    hide Canonical, LowerPath;
    LowerPathNone(EMPTY.redirects, "b");
  }

  /** A lower file cut and extended again reads its lower bytes, not zeros. */
  lemma CutThenExtendResurfaces(store: Store)
    ensures var ops := [TruncateTo(0), TruncateTo(2)];
            && DataAfter(EMPTY, TREE, store, "b", ops, 2) == Some([3, 3])
            && PosixRun(FileData(EMPTY, TREE, store, "b"), ops) == [0, 0]
  {
    hide RegularFile, FileData, BaseOf, RunOps, StoreRun;
    LowerFileIsRegular(store);
    var ops: seq<FileOp> := [TruncateTo(0), TruncateTo(2)];
    assert ops[1..] == [TruncateTo(2)] && ops[1..][1..] == [] && ops[..2] == ops;
    assert SaneRun(store, ops);
    RunIsByteRun(EMPTY, TREE, store, "b", ops);
    assert Resized([3, 3], [3, 3], 0) == [] && Resized([], [3, 3], 2) == [3, 3];
    assert PosixTruncate([3, 3], 0) == [] && PosixTruncate([], 2) == [0, 0];
  }

  /** One file "t" of user 7 and group 8, mode 0755, with times 5 and 6. */
  const OWNED := Lower(
    p => if p == "t" then Found(Stat(TypeFile, Attrs(0x1ED, 7, 8, 5, 6), 1)) else Missing,
    p => if p == "" then Entries(["t"]) else NoDirectory,
    p => if p == "t" then Readable([3]) else NoFile)

  lemma OwnedIsRegular(store: Store)
    ensures RegularFile(EMPTY, OWNED, store, "t")
    ensures OWNED.stat(LowerLocation(EMPTY, "t")) == Found(Stat(TypeFile, Attrs(0x1ED, 7, 8, 5, 6), 1))
  {
    NameIsCanonical("t");
    hide Canonical, LowerPath;
    LowerPathNone(EMPTY.redirects, "t");
  }

  /** A one-byte write makes a lower file show time 0; a truncate to its own size makes it root's, mode 0644. */
  lemma FirstTouchForgets(store: Store)
    requires "x" !in store
    ensures var w, t := Perform(EMPTY, OWNED, "t", WriteAt(0, [9], "x")), Perform(EMPTY, OWNED, "t", TruncateTo(1));
            && w.Some? && ShownAttrs(w.value, OWNED, "t").Some? && ShownAttrs(w.value, OWNED, "t").value.mtime != 6
            && t.Some? && ShownAttrs(t.value, OWNED, "t").Some? && ShownAttrs(t.value, OWNED, "t").value.uid != 7
            && ShownAttrs(EMPTY, OWNED, "t") == Some(Attrs(0x1ED, 7, 8, 5, 6))
  {
    hide RegularFile, Perform, Resolve, LowerLocation;
    var st := Stat(TypeFile, Attrs(0x1ED, 7, 8, 5, 6), 1);
    OwnedIsRegular(store);
    FirstWriteAttrs(EMPTY, OWNED, store, "t", WriteAt(0, [9], "x"), st);
    FirstTruncateAttrs(EMPTY, OWNED, store, "t", TruncateTo(1), st);
    LowerEntryFields(EMPTY, OWNED, "t", st);
  }

  // ------------------------------------------------------------ rename onto a source

  /** "b" was written and renamed to "c": the node at "c" reads its holes from "b". */
  const AFTER_FIRST_MOVE := State(ID, map["c" := PATCHED], {"b"}, map[], map[], 2)

  lemma FirstMoveClears()
    ensures Cleared(AFTER_PATCH, "c") == AFTER_PATCH && SubtreePresent(AFTER_PATCH, "b")
  {
    var s := AFTER_PATCH;
    assert Pruned(s.nodes, "c") == s.nodes && PrunedSet(s.whiteouts, "c") == {};
    assert Pruned(s.redirects, "c") == map[] && Pruned(s.overrides, "c") == map[];
    assert "b" in s.nodes && AtOrBelow("b", "b");
  }

  lemma FirstMoveRekeys()
    ensures MovedSubtree(AFTER_PATCH, "b", "c") == AFTER_PATCH.(nodes := map["c" := PATCHED])
  {
    hide Moved, MovedSet;
    MovedSingle("b", "c", PATCHED);
    MovedNothing<Path>("b", "c");
    MovedNothing<Patch>("b", "c");
  }

  lemma FirstMove()
    ensures Apply(AFTER_PATCH, Ev(2, Rename("b", "c", true))) == Ok(AFTER_FIRST_MOVE)
  {
    Letters();
    hide Canonical, Cleared, SubtreePresent, MovedSubtree;
    FirstMoveClears();
    FirstMoveRekeys();
    assert AFTER_PATCH.whiteouts + {"b"} == {"b"};
  }

  lemma SecondMoveAllowed()
    ensures PurelyLower(AFTER_FIRST_MOVE, "a", "b") && Elsewhere("c", "a", "b")
    ensures SoundNodes(AFTER_FIRST_MOVE.nodes)
  {
    Letters();
    hide Canonical;
    assert PATCHED.extents[1..] == [];
  }

  lemma PatchedEnd()
    ensures ExtentEnd(PATCHED.extents) == 1
  {
    assert PATCHED.extents[1..] == [];
  }

  lemma PatchedCell(i: nat)
    ensures At(PATCHED.extents, i) == if i == 0 then Some(Cell("x", 0)) else None
  {
    var e := PATCHED.extents[0];
    assert PATCHED.extents == [e] + [];
    AtCons(e, [], i);
  }

  lemma PatchedByte(store: Store, base: seq<Byte>, i: nat)
    requires "x" in store && store["x"] == [9]
    ensures ByteAt(PATCHED.extents, store, base, i) == if i == 0 then 9 else BaseByte(base, i)
  {
    hide At;
    PatchedCell(i);
  }

  /** The written byte, then whatever the holes read through to. */
  lemma PatchedBytes(store: Store, base: seq<Byte>)
    requires "x" in store && store["x"] == [9] && base != []
    ensures NodeBytes(PATCHED, base, store) == [9] + base[1..]
  {
    hide ByteAt, ExtentEnd;
    forall i: nat ensures ByteAt(PATCHED.extents, store, base, i) == if i == 0 then 9 else BaseByte(base, i) {
      PatchedByte(store, base, i);
    }
    PatchedEnd();
  }

  /** Write a byte of "b", rename "b" to "c", rename "a" to "b": the contents of "c" change. */
  lemma UnrelatedFileDisturbed(store: Store)
    requires "x" in store && store["x"] == [9]
    ensures WriteOp(EMPTY, TREE, "b", 0, [9], "x") == Ok(PATCH_B)
    ensures Replay(EMPTY, [Ev(1, PATCH_B), Ev(2, Rename("b", "c", true))]) == Ok(AFTER_FIRST_MOVE)
    ensures PurelyLower(AFTER_FIRST_MOVE, "a", "b") && Elsewhere("c", "a", "b")
    ensures FileData(AFTER_FIRST_MOVE, TREE, store, "c") == [9, 3]
    ensures FileData(Renamed(AFTER_FIRST_MOVE, "a", "b"), TREE, store, "c") == [9, 5, 5]
  {
    hide Apply, PurelyLower, Elsewhere, Renamed, NodeBytes, LowerPath;
    PatchApplies();
    FirstMove();
    ReplayTwo(EMPTY, Ev(1, PATCH_B), AFTER_PATCH, Ev(2, Rename("b", "c", true)), AFTER_FIRST_MOVE);
    SecondMoveAllowed();
    PatchedBytes(store, [3, 3]);
    PatchedBytes(store, [5, 5, 5]);
    LowerPathNone(AFTER_FIRST_MOVE.redirects, "b");
    ExposedBytesShift(AFTER_FIRST_MOVE, TREE, store, "a", "b", "c");
  }

  // ------------------------------------------------- renames that lose entries

  /** A directory "d" with files "x" (1 2) and "y" (4). */
  const NESTED := Lower(
    p => if p == "d" then Found(Stat(TypeDir, PLAIN, 0))
         else if p == "d/x" then Found(Stat(TypeFile, PLAIN, 2))
         else if p == "d/y" then Found(Stat(TypeFile, PLAIN, 1))
         else Missing,
    p => if p == "" then Entries(["d"]) else if p == "d" then Entries(["x", "y"]) else NoDirectory,
    p => if p == "d/x" then Readable([1, 2]) else if p == "d/y" then Readable([4]) else NoFile)

  const PATCHED_X := Node(File, PLAIN, -1, "", [Extent(0, 1, "x", 0)], true, "d/x")
  const PATCH_X := Write("d/x", 0, 1, "x", 0, false, 420, true, 0, 0)
  const AFTER_PATCH_X := State(ID, map["d/x" := PATCHED_X], {}, map[], map[], 1)

  lemma NestedPaths()
    ensures Canonical("d") && Canonical("e") && Canonical("f")
    ensures Canonical("d/x") && Canonical("d/y") && Canonical("e/x") && Canonical("e/y")
  {
    forall c: string | |c| == 1 && c[0] != '/' && c[0] != '.' ensures Canonical(c) { NameIsCanonical(c); }
    assert |"d"| == |"e"| == |"f"| == |"x"| == |"y"| == 1;
    assert "d" + "/" + "x" == "d/x" && "d" + "/" + "y" == "d/y";
    assert "e" + "/" + "x" == "e/x" && "e" + "/" + "y" == "e/y";
    CanonicalJoin("d", "x");
    CanonicalJoin("d", "y");
    CanonicalJoin("e", "x");
    CanonicalJoin("e", "y");
  }

  lemma PatchXApplies()
    ensures WriteOp(EMPTY, NESTED, "d/x", 0, [9], "x") == Ok(PATCH_X)
    ensures Apply(EMPTY, Ev(1, PATCH_X)) == Ok(AFTER_PATCH_X)
  {
    NestedPaths();
    hide Canonical, DoRename, DoSetattr;
    LowerPathNone(EMPTY.redirects, "d/x");
    var e := Extent(0, 1, "x", 0);
    assert Insert([], e) == [e] by { assert [] + [e] == [e] && [e][1..] == []; }
  }

  lemma MixedSubtree()
    ensures SubtreePresent(AFTER_PATCH_X, "d") && CleanKeys(AFTER_PATCH_X) && Incomparable("d", "e")
  {
    NestedPaths();
    hide Canonical;
    assert "d/x"[..1] == "d";
    assert "d/x" in AFTER_PATCH_X.nodes && AtOrBelow("d/x", "d");
  }

  lemma MixedRenameAllowed()
    ensures Renamable(AFTER_PATCH_X, "d", "e") && SubtreePresent(AFTER_PATCH_X, "d")
    ensures Apply(AFTER_PATCH_X, Ev(2, Rename("d", "e", true))) ==
            Ok(DoRename(AFTER_PATCH_X, "d", "e", true).(lowerId := ID, seqLast := 2))
  {
    hide Canonical, DoRename, SubtreePresent, CleanKeys;
    NestedPaths();
    MixedSubtree();
    assert Bind(AFTER_PATCH_X, Ev(2, Rename("d", "e", true))) == AFTER_PATCH_X;
    LowerIdKept(AFTER_PATCH_X, "d", "e", true);
  }

  lemma LowerIdKept(s: State, from: Path, to: Path, fromLower: bool)
    ensures DoRename(s, from, to, fromLower).lowerId == s.lowerId
  {
    hide SubtreePresent;
  }

  lemma SameView(s: State, tree: Lower, x: Path, lowerId: string, n: nat)
    ensures Absent(s.(lowerId := lowerId, seqLast := n), tree, x) == Absent(s, tree, x)
  {
    SameMapsSameView(s, s.(lowerId := lowerId, seqLast := n), tree, x);
  }

  lemma MixedPathFacts()
    ensures AtOrBelow("d/y", "d") && AtOrBelow("e/y", "e")
    ensures Rebase("d/y", "d", "e") == "e/y" && Rebase("e/y", "e", "d") == "d/y"
  {
    assert "d/y"[..1] == "d" && "d/y"[2..] == "y" && "e/y"[..1] == "e" && "e/y"[2..] == "y";
    assert "e" + "/" + "y" == "e/y" && "d" + "/" + "y" == "d/y";
  }

  lemma MixedLocations()
    ensures LocationAfter(AFTER_PATCH_X, "d", "e", "e/y") == "e/y"
    ensures LowerPath(Pruned(AFTER_PATCH_X.redirects, "e"), "e") == "e"
  {
    hide LowerPath, Rebase, AtOrBelow, SubtreePresent, Renamable;
    MixedPathFacts();
    MixedRenameAllowed();
    assert Pruned(AFTER_PATCH_X.redirects, "e") == map[];
    LowerPathNone(map[], "e");
    LowerPathNone(map[], "e/y");
  }

  lemma MixedAbsences()
    ensures var r := DoRename(AFTER_PATCH_X, "d", "e", true);
            && Absent(r, NESTED, "d") && Absent(r, NESTED, "d/y") && Absent(r, NESTED, "e") && Absent(r, NESTED, "e/y")
  {
    hide DoRename, Absent, Canonical, LowerPath, LocationAfter, SubtreePresent, Renamable, Rebase, AtOrBelow, Pruned,
      Apply;
    NestedPaths();
    MixedPathFacts();
    MixedRenameAllowed();
    MixedLocations();
    MixedRenameLosesRoot(AFTER_PATCH_X, NESTED, "d", "e");
    OldPlaceAbsentIff(AFTER_PATCH_X, NESTED, "d", "e", true, "d/y");
    MovedAbsentIff(AFTER_PATCH_X, NESTED, "d", "e", true, "d/y");
  }

  lemma MixedBefore()
    ensures Present(AFTER_PATCH_X, NESTED, "d") && Present(AFTER_PATCH_X, NESTED, "d/y")
  {
    LowerPathNone(AFTER_PATCH_X.redirects, "d");
    LowerPathNone(AFTER_PATCH_X.redirects, "d/y");
    hide LowerPath;
  }

  /** Write one byte of "d/x", then rename "d" to "e": the directory and its other file are nowhere. */
  lemma EditedDirectoryVanishes()
    ensures WriteOp(EMPTY, NESTED, "d/x", 0, [9], "x") == Ok(PATCH_X)
    ensures var r := Replay(EMPTY, [Ev(1, PATCH_X), Ev(2, Rename("d", "e", true))]);
            && r.Ok? && Absent(r.value, NESTED, "d") && Absent(r.value, NESTED, "d/y")
            && Absent(r.value, NESTED, "e") && Absent(r.value, NESTED, "e/y")
    ensures Present(AFTER_PATCH_X, NESTED, "d") && Present(AFTER_PATCH_X, NESTED, "d/y")
  {
    hide Apply, Absent, Present, DoRename, WriteOp;
    PatchXApplies();
    MixedRenameAllowed();
    MixedAbsences();
    MixedBefore();
    var moved := DoRename(AFTER_PATCH_X, "d", "e", true);
    var r := moved.(lowerId := ID, seqLast := 2);
    ReplayTwo(EMPTY, Ev(1, PATCH_X), AFTER_PATCH_X, Ev(2, Rename("d", "e", true)), r);
    SameView(moved, NESTED, "d", ID, 2);
    SameView(moved, NESTED, "d/y", ID, 2);
    SameView(moved, NESTED, "e", ID, 2);
    SameView(moved, NESTED, "e/y", ID, 2);
  }

  /** "d" was renamed to "e" while purely lower-backed. */
  const AFTER_REDIRECT := State(ID, map[], {"d"}, map[], map["e" := "d"], 1)

  lemma RedirectApplies()
    ensures Apply(EMPTY, Ev(1, Rename("d", "e", true))) == Ok(AFTER_REDIRECT)
  {
    NestedPaths();
    MovedSetIdleBelow({"d"}, "d", "e");
    MovedNothing<Patch>("d", "e");
    var b := Bind(EMPTY, Ev(1, Rename("d", "e", true)));
    assert Cleared(b, "e") == b by {
      assert Pruned(b.nodes, "e") == map[] && Pruned(b.redirects, "e") == map[] && Pruned(b.overrides, "e") == map[];
      assert PrunedSet(b.whiteouts, "e") == {};
    }
    assert b.whiteouts + {"d"} == {"d"};
    hide Canonical, Moved, MovedSet, Cleared;
  }

  lemma SecondRenameFacts()
    ensures Renamable(AFTER_REDIRECT, "e/x", "f") && !SubtreePresent(AFTER_REDIRECT, "e/x")
    ensures Rebase("e/x", "e/x", "f") == "f" && Rebase("f", "f", "e/x") == "e/x"
    ensures AtOrBelow("e/x", "e/x") && AtOrBelow("f", "f")
  {
    NestedPaths();
    hide Canonical;
    assert "e/x"[..1] == "e" && !AtOrBelow("e/x", "f") && !AtOrBelow("f", "e/x");
    assert CleanKeys(AFTER_REDIRECT);
  }

  lemma SecondRenameApplies()
    ensures Apply(AFTER_REDIRECT, Ev(2, Rename("e/x", "f", true))) ==
            Ok(DoRename(AFTER_REDIRECT, "e/x", "f", true).(lowerId := ID, seqLast := 2))
  {
    hide Canonical, DoRename, SubtreePresent;
    NestedPaths();
    assert Bind(AFTER_REDIRECT, Ev(2, Rename("e/x", "f", true))) == AFTER_REDIRECT;
    LowerIdKept(AFTER_REDIRECT, "e/x", "f", true);
  }

  lemma BeforeSecondRename()
    ensures Present(AFTER_REDIRECT, NESTED, "e/x")
  {
    hide LowerPath;
    assert "e/x"[..1] == "e" && "e/x"[1..] == "/x" && "d" + "/x" == "d/x";
    LowerPathBy(AFTER_REDIRECT.redirects, "e/x", "e");
    assert !AtOrBelow("e/x", "d");
  }

  lemma SecondRenameLoses()
    ensures var r := DoRename(AFTER_REDIRECT, "e/x", "f", true); Absent(r, NESTED, "e/x") && Absent(r, NESTED, "f")
  {
    hide DoRename, Absent, Canonical, LowerPath, SubtreePresent, Renamable, Rebase, AtOrBelow;
    NestedPaths();
    SecondRenameFacts();
    assert LocationAfter(AFTER_REDIRECT, "e/x", "f", "f") == "e/x";
    OldPlaceAbsentIff(AFTER_REDIRECT, NESTED, "e/x", "f", true, "e/x");
    MovedAbsentIff(AFTER_REDIRECT, NESTED, "e/x", "f", true, "e/x");
  }

  /** Rename "d" to "e", then "e/x" to "f": lookup follows one redirect only, so the file is nowhere. */
  lemma TwiceRenamedFileVanishes()
    ensures Apply(EMPTY, Ev(1, Rename("d", "e", true))) == Ok(AFTER_REDIRECT)
    ensures Present(AFTER_REDIRECT, NESTED, "e/x")
    ensures var r := Replay(EMPTY, [Ev(1, Rename("d", "e", true)), Ev(2, Rename("e/x", "f", true))]);
            r.Ok? && Absent(r.value, NESTED, "e/x") && Absent(r.value, NESTED, "f")
  {
    hide Apply, Absent, Present, DoRename;
    RedirectApplies();
    SecondRenameApplies();
    SecondRenameLoses();
    BeforeSecondRename();
    var moved := DoRename(AFTER_REDIRECT, "e/x", "f", true);
    ReplayTwo(EMPTY, Ev(1, Rename("d", "e", true)), AFTER_REDIRECT, Ev(2, Rename("e/x", "f", true)),
      moved.(lowerId := ID, seqLast := 2));
    SameView(moved, NESTED, "e/x", ID, 2);
    SameView(moved, NESTED, "f", ID, 2);
  }

  // ----------------------------------------------------------------- branches

  const STARTED := EMPTY.(lowerId := ID, seqLast := 1)
  const POPULATED := State(ID, map["n" := NEW_FILE], {}, map[], map[], 2)
  const POPULATED_VIEW := View(ID, 2, [("n", NEW_FILE)], [], [], [])

  lemma StartThenCreate()
    ensures Apply(EMPTY, Ev(1, SessionStart)) == Ok(STARTED)
    ensures Apply(STARTED, Ev(2, Create("n", 420, 0, 0))) == Ok(POPULATED)
  {
    Letters();
    hide Canonical, DoRename, DoSetattr, DoWrite;
  }

  lemma PopulatedIsViewed()
    ensures IsView(POPULATED_VIEW, POPULATED)
  {
    assert Keys(POPULATED_VIEW.nodes) == ["n"];
    assert Elems(["n"]) == {"n"} && Elems([]) == {};
  }

  /** A branch of a branch, asked for at an offset before the first branch began, is empty. */
  lemma EarlyBranchIsEmpty(child: SessionId)
    ensures Replay(EMPTY, [Ev(1, SessionStart), Ev(2, Create("n", 420, 0, 0))]) == Ok(POPULATED)
    ensures var img := Image(2, POPULATED_VIEW);
            var l := Ledger(child, [], {img}, {}, None, POPULATED, 2, []);
            && Inv(l) && Choosable(l, Some(img), -1) && Choosable(l, None, 1)
            && Rebuild(l, Some(img), -1).Ok? && Rebuild(l, Some(img), -1).value.upper == POPULATED
            && Rebuild(l, None, 1).Ok? && Rebuild(l, None, 1).value.upper == EMPTY != POPULATED
  {
    hide Apply, IsView, Rebuild, Inv, Through;
    StartThenCreate();
    ReplayTwo(EMPTY, Ev(1, SessionStart), STARTED, Ev(2, Create("n", 420, 0, 0)), POPULATED);
    PopulatedIsViewed();
    var img := Image(2, POPULATED_VIEW);
    var l := Ledger(child, [], {img}, {}, None, POPULATED, 2, []);
    Cluster.ForkLedger(l, POPULATED_VIEW);
    RebuildIsReplay(l, Some(img), -1);
    EarlyTargetIsEmpty(l, None, 1);
    assert Through(l, 0) == POPULATED by { BeforeAll(l, 1); }
  }

  lemma RebuildWhole(l: Ledger, to: int, s: State)
    requires 0 <= to && forall i :: 0 <= i < |l.recs| ==> 0 <= l.recs[i].offset <= to
    requires Replay(EMPTY, EventsOf(l.recs)) == Ok(s)
    ensures Rebuild(l, None, to).Ok? && Rebuild(l, None, to).value.upper == s
  {
    hide Replay, Window, EventsOf, Restore;
    WindowUniform(l.recs, 0, to, true);
  }

  /** A root session with an ordered, numbered, replayable log and nothing else. */
  lemma PlainRootInv(l: Ledger)
    requires l.images == {} && l.pending == {} && l.live.None? && l.retired == [] && l.base == EMPTY && l.baseOff == -1
    requires Ordered(l) && Replays(l)
    ensures Inv(l)
  {
    hide Fold, Faithful;
  }

  /** Offset 9 of a session whose newest record is 0 means something else once record 5 exists. */
  lemma BranchOffsetDrifts(sid: SessionId)
    ensures var r, q := Record(0, sid, Ev(1, SessionStart)), Record(5, sid, Ev(2, Create("n", 420, 0, 0)));
            var l := Ledger(sid, [r], {}, {}, None, EMPTY, -1, []);
            var m := l.(recs := [r, q]);
            && Inv(l) && Inv(m) && Choosable(l, None, 9) && Choosable(m, None, 9)
            && Rebuild(l, None, 9).Ok? && Rebuild(l, None, 9).value.upper == STARTED
            && Rebuild(m, None, 9).Ok? && Rebuild(m, None, 9).value.upper == POPULATED != STARTED
  {
    hide Apply, Rebuild, Inv;
    var e, f := Ev(1, SessionStart), Ev(2, Create("n", 420, 0, 0));
    var r, q := Record(0, sid, e), Record(5, sid, f);
    StartThenCreate();
    ReplayOne(EMPTY, e);
    ReplayTwo(EMPTY, e, STARTED, f, POPULATED);
    assert EventsOf([r]) == [e] && EventsOf([r, q]) == [e, f];
    var l := Ledger(sid, [r], {}, {}, None, EMPTY, -1, []);
    RebuildWhole(l, 9, STARTED);
    RebuildWhole(l.(recs := [r, q]), 9, POPULATED);
    PlainRootInv(l);
    PlainRootInv(l.(recs := [r, q]));
  }

  /** A late image of a parent two events old stops a reopened branch that has committed one event. */
  lemma LateImageBlocks(child: SessionId)
    ensures var r, q := Record(2, child, Ev(1, SessionStart)), Record(3, child, Ev(2, Create("n", 420, 0, 0)));
            var l := Ledger(child, [r, q], {}, {}, None, EMPTY, -1, []);
            && Inv(l) && Rebuild(l, None, -1).Ok? && IsView(POPULATED_VIEW, POPULATED)
            && Rebuild(l, Some(Image(2, POPULATED_VIEW)), -1) == Err(SeqOutOfOrder)
  {
    hide Apply, Rebuild, Inv, IsView;
    var e, f := Ev(1, SessionStart), Ev(2, Create("n", 420, 0, 0));
    var l := Ledger(child, [Record(2, child, e), Record(3, child, f)], {}, {}, None, EMPTY, -1, []);
    StartThenCreate();
    ReplayTwo(EMPTY, e, STARTED, f, POPULATED);
    assert EventsOf(l.recs) == [e, f];
    PlainRootInv(l);
    RebuildIsReplay(l, None, -1);
    PopulatedIsViewed();
    LateImageOpensIff(l, Image(2, POPULATED_VIEW), POPULATED, ID, -1);
  }
}
