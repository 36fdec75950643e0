/**
 Runs of handle operations on one open file, from the merged view's decisions
 (size, end-of-file flag, sparse materialization) down to the applied events.
 */
module FileRuns {
  import opened Machine
  import opened Paths
  import opened Extents
  import opened Overlay
  import opened Lookup
  import opened MergedView
  import opened FileBytes

  function RawBytes(tree: Lower, at: Path): seq<Byte> {
    match tree.read(at)
    case Readable(d) => d
    case _ => []
  }

  function LowerBytes(s: State, tree: Lower, rel: Path): seq<Byte> {
    RawBytes(tree, LowerLocation(s, rel))
  }

  /** The lower source is a readable regular file of its stated size, or absent. */
  ghost predicate SourceOk(s: State, tree: Lower, rel: Path) {
    var at := LowerLocation(s, rel);
    || (&& tree.stat(at).Found? && tree.stat(at).stat.ftype == TypeFile
        && tree.read(at).Readable? && |tree.read(at).data| == tree.stat(at).stat.size)
    || (tree.stat(at).Missing? && tree.read(at).NoFile?)
  }

  /** The overlay node, or the fallthrough node a first write to a lower file would create. */
  function FileNode(s: State, rel: Path): Node {
    if rel in s.nodes then s.nodes[rel] else Node(File, Attrs(0, 0, 0, 0, 0), -1, "", [], true, rel)
  }

  /** The bytes that show through the file's holes. */
  function BaseOf(s: State, tree: Lower, rel: Path): seq<Byte> {
    var n := FileNode(s, rel);
    if n.fallthrough then LowerBytes(s, tree, FallthroughSource(rel, n)) else []
  }

  function FileData(s: State, tree: Lower, store: Store, rel: Path): seq<Byte> {
    NodeBytes(FileNode(s, rel), BaseOf(s, tree, rel), store)
  }

  /** The merged view shows a well-formed regular file at rel. */
  ghost predicate RegularFile(s: State, tree: Lower, store: Store, rel: Path) {
    var n := FileNode(s, rel);
    && Sound(s) && Canonical(rel) && GoodFile(n, BaseOf(s, tree, rel), store)
    && (n.fallthrough ==> SourceOk(s, tree, FallthroughSource(rel, n)))
    && !tree.stat(LowerLocation(s, rel)).Unreadable?
    && (rel !in s.nodes ==> !Hidden(s.whiteouts, rel) && tree.stat(LowerLocation(s, rel)).Found?)
  }

  /** Resolve reports the byte sequence's length. */
  lemma ResolveFile(s: State, tree: Lower, store: Store, rel: Path)
    requires RegularFile(s, tree, store, rel)
    ensures var e := Resolve(s, tree, rel);
            && e.Ok? && e.value.kind == Some(File) && e.value.size == SizeOf(FileNode(s, rel), BaseOf(s, tree, rel))
            && (e.value.upper == if rel in s.nodes then Some(s.nodes[rel]) else None)
            && (rel !in s.nodes ==> e.value.lower.Some?)
    ensures |FileData(s, tree, store, rel)| == SizeOf(FileNode(s, rel), BaseOf(s, tree, rel))
  {
    hide Canonical, Hidden, LowerLocation, CleanKeys, SoundNodes, At;
    EdgeSlashes(rel);
  }

  // --------------------------------------------------------------- operations

  datatype FileOp = WriteAt(off: nat, data: seq<Byte>, id: BlobId) | TruncateTo(size: nat)

  /** The event an open handle commits for a write. */
  function WriteOp(s: State, tree: Lower, rel: Path, off: int, data: seq<Byte>, id: BlobId): Result<Op, Errno> {
    match Resolve(s, tree, rel)
    case Err(e) => Err(e)
    case Ok(e) =>
      var sparse := e.upper.None? && e.kind.Some?;
      var a := if sparse && e.lower.Some? then e.lower.value.attrs else Attrs(0, 0, 0, 0, 0);
      Ok(Write(rel, off, |data|, id, 0, Int64(off + |data|) >= e.size, a.mode % 4096, sparse, a.uid, a.gid))
  }

  function OpOf(s: State, tree: Lower, rel: Path, op: FileOp): Result<Op, Errno> {
    match op
    case WriteAt(off, data, id) => WriteOp(s, tree, rel, off, data, id)
    case TruncateTo(size) => Ok(Setattr(rel, NO_PATCH, Some(size)))
  }

  function StoreAfter(store: Store, op: FileOp): Store {
    if op.WriteAt? then store[op.id := op.data] else store
  }

  /** One sequential operation: decide the event, apply it; None when the mount refuses. */
  function Perform(s: State, tree: Lower, rel: Path, op: FileOp): Option<State> {
    match OpOf(s, tree, rel, op)
    case Err(_) => None
    case Ok(o) =>
      match Apply(s, Event(s.seqLast + 1, s.lowerId, o))
      case Ok(s') => Some(s')
      case Err(_) => None
  }

  function RunOps(s: State, tree: Lower, rel: Path, ops: seq<FileOp>): Option<State>
    decreases ops
  {
    if ops == [] then Some(s)
    else match Perform(s, tree, rel, ops[0])
      case Some(s') => RunOps(s', tree, rel, ops[1..])
      case None => None
  }

  /** What one operation does to the byte sequence over the given base. */
  function ByteOp(f: seq<Byte>, base: seq<Byte>, op: FileOp): seq<Byte> {
    match op
    case WriteAt(off, data, _) => Overwrite(f, base, off, data)
    case TruncateTo(size) => Resized(f, base, size)
  }

  function ByteRun(f: seq<Byte>, base: seq<Byte>, ops: seq<FileOp>): seq<Byte>
    decreases ops
  {
    if ops == [] then f else ByteRun(ByteOp(f, base, ops[0]), base, ops[1..])
  }

  function StoreRun(store: Store, ops: seq<FileOp>): Store
    decreases ops
  {
    if ops == [] then store else StoreRun(StoreAfter(store, ops[0]), ops[1..])
  }

  ghost predicate SaneFileOp(store: Store, op: FileOp) {
    match op
    case WriteAt(off, data, id) => off + |data| < TWO63 && (id in store ==> store[id] == data)
    case TruncateTo(size) => size < TWO63
  }

  /** Numeric hypothesis and content addressing along the whole run. */
  ghost predicate SaneRun(store: Store, ops: seq<FileOp>)
    decreases ops
  {
    ops == [] || (SaneFileOp(store, ops[0]) && SaneRun(StoreAfter(store, ops[0]), ops[1..]))
  }

  // -------------------------------------------------------------------- steps

  /** A file whose node was replaced by one of the same backing. */
  lemma ReplacedNode(s: State, t: State, tree: Lower, store: Store, rel: Path, n: Node)
    requires Sound(t) && t.redirects == s.redirects && rel in t.nodes && t.nodes[rel] == n
    requires RegularFile(s, tree, store, rel)
    requires n.fallthrough == FileNode(s, rel).fallthrough && n.lowerRel == FileNode(s, rel).lowerRel
    ensures BaseOf(t, tree, rel) == BaseOf(s, tree, rel)
    ensures forall st :: FileData(t, tree, st, rel) == NodeBytes(n, BaseOf(s, tree, rel), st)
    ensures forall st :: GoodFile(n, BaseOf(s, tree, rel), st) ==> RegularFile(t, tree, st, rel)
  {
    hide Canonical, Hidden, LowerPath, Sound, GoodFile, NodeBytes;
  }

  lemma WriteTargetGood(s: State, tree: Lower, store: Store, rel: Path, op: Op)
    requires RegularFile(s, tree, store, rel)
    requires op.Write? && op.path == rel && (rel !in s.nodes ==> op.sparse)
    ensures GoodFile(WriteTarget(s, op), BaseOf(s, tree, rel), store)
    ensures forall st :: NodeBytes(WriteTarget(s, op), BaseOf(s, tree, rel), st) == FileData(s, tree, st, rel)
    ensures SizeOf(WriteTarget(s, op), BaseOf(s, tree, rel)) == SizeOf(FileNode(s, rel), BaseOf(s, tree, rel))
    ensures WriteTarget(s, op).fallthrough == FileNode(s, rel).fallthrough
    ensures WriteTarget(s, op).lowerRel == FileNode(s, rel).lowerRel
  {
    hide Canonical, Hidden, LowerLocation, CleanKeys, SoundNodes, BaseOf;
  }

  /** The event a sequential write commits is accepted and carries the handle's end-of-file decision. */
  lemma WriteAccepted(s: State, tree: Lower, store: Store, rel: Path, op: FileOp)
    requires RegularFile(s, tree, store, rel) && op.WriteAt? && SaneFileOp(store, op)
    ensures var r := WriteOp(s, tree, rel, op.off, op.data, op.id);
            && r.Ok? && r.value.Write? && r.value.path == rel && SaneOp(r.value)
            && (rel !in s.nodes ==> r.value.sparse)
            && HandleWrite(r.value, FileNode(s, rel), BaseOf(s, tree, rel), op.off, op.data, op.id)
            && Apply(s, Event(s.seqLast + 1, s.lowerId, r.value)).Ok?
  {
    ResolveFile(s, tree, store, rel);
    hide Canonical, Hidden, LowerLocation, CleanKeys, SoundNodes, BaseOf, SizeOf, At, Resolve, DoOp, TidyFrom, Tight;
  }

  lemma WriteStep(s: State, tree: Lower, store: Store, rel: Path, op: FileOp)
    requires RegularFile(s, tree, store, rel) && op.WriteAt? && SaneFileOp(store, op)
    ensures var t := Perform(s, tree, rel, op);
            && t.Some? && RegularFile(t.value, tree, StoreAfter(store, op), rel)
            && BaseOf(t.value, tree, rel) == BaseOf(s, tree, rel)
            && FileData(t.value, tree, StoreAfter(store, op), rel) ==
               ByteOp(FileData(s, tree, store, rel), BaseOf(s, tree, rel), op)
  {
    hide RegularFile, FileNode, BaseOf, FileData, WriteTarget, WriteInto, GoodFile, NodeBytes, Overwrite, Apply,
      WriteOp, SaneOp, Sound, HandleWrite;
    WriteAccepted(s, tree, store, rel, op);
    var w := WriteOp(s, tree, rel, op.off, op.data, op.id).value;
    var ev := Event(s.seqLast + 1, s.lowerId, w);
    var base, n := BaseOf(s, tree, rel), WriteTarget(s, w);
    WriteTargetGood(s, tree, store, rel, w);
    SameDecision(w, FileNode(s, rel), n, base, op.off, op.data, op.id);
    SoundOf(s, tree, store, rel);
    ApplyKeepsSound(s, ev);
    NodeWrite(n, base, store, w, op.off, op.data, op.id);
    BindWrite(s, ev);
    KeepsBacking(n, w);
    ReplacedNode(s, Apply(s, ev).value, tree, store, rel, WriteInto(n, w));
  }

  lemma SameDecision(w: Op, m: Node, n: Node, base: seq<Byte>, off: int, data: seq<Byte>, id: BlobId)
    requires HandleWrite(w, m, base, off, data, id) && SizeOf(m, base) == SizeOf(n, base)
    ensures HandleWrite(w, n, base, off, data, id)
  {
  }

  lemma SoundOf(s: State, tree: Lower, store: Store, rel: Path)
    requires RegularFile(s, tree, store, rel)
    ensures Sound(s) && Canonical(rel)
  {
  }

  lemma KeepsBacking(n: Node, op: Op)
    requires op.Write?
    ensures WriteInto(n, op).fallthrough == n.fallthrough && WriteInto(n, op).lowerRel == n.lowerRel
  {
  }

  lemma BindWrite(s: State, ev: Event)
    requires Apply(s, ev).Ok? && ev.op.Write?
    ensures var t := Apply(s, ev).value;
            && t.redirects == s.redirects && ev.op.path in t.nodes
            && t.nodes[ev.op.path] == WriteInto(WriteTarget(s, ev.op), ev.op)
  {
    hide WriteInto, CheckOp;
  }

  lemma TruncateAccepted(s: State, tree: Lower, store: Store, rel: Path, size: nat)
    requires RegularFile(s, tree, store, rel)
    ensures Apply(s, Event(s.seqLast + 1, s.lowerId, Setattr(rel, NO_PATCH, Some(size)))).Ok?
    ensures GoodFile(FileNode(s, rel), BaseOf(s, tree, rel), store)
    ensures FileData(s, tree, store, rel) == NodeBytes(FileNode(s, rel), BaseOf(s, tree, rel), store)
  {
    hide Canonical, Hidden, LowerLocation, CleanKeys, SoundNodes, BaseOf, SizeOf, At, DoOp, TidyFrom, Tight;
  }

  /** Attributes play no part in a file's bytes. */
  lemma AttrsIrrelevant(n: Node, a: Attrs, base: seq<Byte>, store: Store)
    requires GoodFile(n, base, store)
    ensures GoodFile(n.(attrs := a), base, store)
    ensures NodeBytes(n.(attrs := a), base, store) == NodeBytes(n, base, store)
  {
    hide Canonical, Compact;
  }

  lemma TruncateStep(s: State, tree: Lower, store: Store, rel: Path, op: FileOp)
    requires RegularFile(s, tree, store, rel) && op.TruncateTo? && SaneFileOp(store, op)
    ensures var t := Perform(s, tree, rel, op);
            && t.Some? && RegularFile(t.value, tree, store, rel)
            && BaseOf(t.value, tree, rel) == BaseOf(s, tree, rel)
            && FileData(t.value, tree, store, rel) == ByteOp(FileData(s, tree, store, rel), BaseOf(s, tree, rel), op)
  {
    hide RegularFile, FileNode, BaseOf, FileData, GoodFile, NodeBytes, Resized, Resize, Apply, Sound;
    var ev := Event(s.seqLast + 1, s.lowerId, Setattr(rel, NO_PATCH, Some(op.size)));
    var base, n := BaseOf(s, tree, rel), FileNode(s, rel);
    TruncateAccepted(s, tree, store, rel, op.size);
    var t := Apply(s, ev).value;
    SoundOf(s, tree, store, rel);
    ApplyKeepsSound(s, ev);
    NodeTruncate(n, base, store, op.size);
    BindTruncate(s, ev);
    var m := t.nodes[rel];
    AttrsIrrelevant(Resize(n, op.size), m.attrs, base, store);
    ReplacedNode(s, t, tree, store, rel, m);
  }

  lemma BindTruncate(s: State, ev: Event)
    requires Apply(s, ev).Ok? && ev.op.Setattr? && ev.op.newSize.Some?
    ensures var t, p := Apply(s, ev).value, ev.op.path;
            && t.redirects == s.redirects && p in t.nodes
            && t.nodes[p] == Resize(FileNode(s, p), ev.op.newSize.value).(attrs := t.nodes[p].attrs)
            && t.nodes[p].fallthrough == FileNode(s, p).fallthrough && t.nodes[p].lowerRel == FileNode(s, p).lowerRel
  {
    hide CheckOp;
    assert Clip([], Int64(ev.op.newSize.value)) == [];
  }

  /** One sequential handle operation is accepted and does to the bytes what its reference does. */
  lemma PerformIsByteOp(s: State, tree: Lower, store: Store, rel: Path, op: FileOp)
    requires RegularFile(s, tree, store, rel) && SaneFileOp(store, op)
    ensures var t := Perform(s, tree, rel, op);
            && t.Some? && RegularFile(t.value, tree, StoreAfter(store, op), rel)
            && BaseOf(t.value, tree, rel) == BaseOf(s, tree, rel)
            && FileData(t.value, tree, StoreAfter(store, op), rel) ==
               ByteOp(FileData(s, tree, store, rel), BaseOf(s, tree, rel), op)
  {
    if op.WriteAt? { WriteStep(s, tree, store, rel, op); } else { TruncateStep(s, tree, store, rel, op); }
  }

  /** Any sequential run of writes and truncates acts on the file as on a byte sequence over its base. */
  lemma {:induction false} RunIsByteRun(s: State, tree: Lower, store: Store, rel: Path, ops: seq<FileOp>)
    requires RegularFile(s, tree, store, rel) && SaneRun(store, ops)
    ensures var t := RunOps(s, tree, rel, ops);
            && t.Some? && RegularFile(t.value, tree, StoreRun(store, ops), rel)
            && FileData(t.value, tree, StoreRun(store, ops), rel) ==
               ByteRun(FileData(s, tree, store, rel), BaseOf(s, tree, rel), ops)
    decreases ops
  {
    hide RegularFile, Perform, FileData, BaseOf, ByteOp;
    if ops == [] {
    } else {
      PerformIsByteOp(s, tree, store, rel, ops[0]);
      RunIsByteRun(Perform(s, tree, rel, ops[0]).value, tree, StoreAfter(store, ops[0]), rel, ops[1..]);
    }
  }

  // -------------------------------------------------------------------- POSIX

  function PosixOp(f: seq<Byte>, op: FileOp): seq<Byte> {
    match op
    case WriteAt(off, data, _) => PosixWrite(f, off, data)
    case TruncateTo(size) => PosixTruncate(f, size)
  }

  function PosixRun(f: seq<Byte>, ops: seq<FileOp>): seq<Byte>
    decreases ops
  {
    if ops == [] then f else PosixRun(PosixOp(f, ops[0]), ops[1..])
  }

  /** The operation does not create a file range where lower bytes would resurface, nor extend by an empty write. */
  predicate Tame(f: seq<Byte>, base: seq<Byte>, op: FileOp) {
    match op
    case WriteAt(off, data, _) => (data == [] ==> off <= |f|) && GapIsZero(base, |f|, off)
    case TruncateTo(size) => GapIsZero(base, |f|, size)
  }

  predicate TameRun(f: seq<Byte>, base: seq<Byte>, ops: seq<FileOp>)
    decreases ops
  {
    ops == [] || (Tame(f, base, ops[0]) && TameRun(PosixOp(f, ops[0]), base, ops[1..]))
  }

  lemma TameIff(f: seq<Byte>, base: seq<Byte>, op: FileOp)
    ensures ByteOp(f, base, op) == PosixOp(f, op) <==> Tame(f, base, op)
  {
    match op
    case WriteAt(off, data, _) => WriteIsPosixIff(f, base, off, data);
    case TruncateTo(size) => TruncateIsPosixIff(f, base, size);
  }

  /** After every prefix of the run the bytes are what POSIX says. */
  ghost predicate PosixThroughout(f: seq<Byte>, base: seq<Byte>, ops: seq<FileOp>) {
    forall k :: 0 <= k <= |ops| ==> ByteRun(f, base, ops[..k]) == PosixRun(f, ops[..k])
  }

  lemma PrefixRuns(f: seq<Byte>, base: seq<Byte>, ops: seq<FileOp>, k: nat)
    requires k < |ops|
    ensures ByteRun(f, base, ops[..k + 1]) == ByteRun(ByteOp(f, base, ops[0]), base, ops[1..][..k])
    ensures PosixRun(f, ops[..k + 1]) == PosixRun(PosixOp(f, ops[0]), ops[1..][..k])
  {
    assert ops[..k + 1][0] == ops[0] && ops[..k + 1][1..] == ops[1..][..k];
  }

  /** A run behaves as POSIX throughout exactly when each of its operations is tame where it happens. */
  lemma {:induction false} RunIsPosixIff(f: seq<Byte>, base: seq<Byte>, ops: seq<FileOp>)
    ensures PosixThroughout(f, base, ops) <==> TameRun(f, base, ops)
    decreases ops
  {
    if ops == [] {
      assert forall k :: 0 <= k <= |ops| ==> ops[..k] == [];
    } else {
      hide ByteOp, PosixOp, Tame;
      var g := PosixOp(f, ops[0]);
      TameIff(f, base, ops[0]);
      RunIsPosixIff(g, base, ops[1..]);
      if PosixThroughout(f, base, ops) {
        FirstStep(f, base, ops);
        forall k | 0 <= k <= |ops[1..]| ensures ByteRun(g, base, ops[1..][..k]) == PosixRun(g, ops[1..][..k]) {
          PrefixRuns(f, base, ops, k);
        }
      }
      if TameRun(f, base, ops) {
        forall k | 0 <= k <= |ops| ensures ByteRun(f, base, ops[..k]) == PosixRun(f, ops[..k]) {
          if k == 0 { assert ops[..0] == []; } else { PrefixRuns(f, base, ops, k - 1); }
        }
      }
    }
  }

  lemma FirstStep(f: seq<Byte>, base: seq<Byte>, ops: seq<FileOp>)
    requires ops != [] && PosixThroughout(f, base, ops)
    ensures ByteOp(f, base, ops[0]) == PosixOp(f, ops[0])
  {
    hide ByteOp, PosixOp;
    PrefixRuns(f, base, ops, 0);
    assert ops[1..][..0] == [];
    assert ByteRun(f, base, ops[..1]) == PosixRun(f, ops[..1]);
  }

  lemma {:induction false} SaneRunPrefix(store: Store, ops: seq<FileOp>, k: nat)
    requires SaneRun(store, ops) && k <= |ops|
    ensures SaneRun(store, ops[..k])
    decreases ops
  {
    if k == 0 {
    } else {
      assert ops[..k][0] == ops[0] && ops[..k][1..] == ops[1..][..k - 1];
      SaneRunPrefix(StoreAfter(store, ops[0]), ops[1..], k - 1);
    }
  }

  /** What the file holds after the first k operations. */
  function DataAfter(s: State, tree: Lower, store: Store, rel: Path, ops: seq<FileOp>, k: nat): Option<seq<Byte>>
    requires k <= |ops|
  {
    match RunOps(s, tree, rel, ops[..k])
    case Some(t) => Some(FileData(t, tree, StoreRun(store, ops[..k]), rel))
    case None => None
  }

  /**
   The mounted file is a POSIX byte file throughout a sequential run of writes and truncates
   exactly when the run is tame, a test on sizes and lower bytes alone.
   */
  lemma FileIsPosixIff(s: State, tree: Lower, store: Store, rel: Path, ops: seq<FileOp>)
    requires RegularFile(s, tree, store, rel) && SaneRun(store, ops)
    ensures (forall k :: 0 <= k <= |ops| ==>
               DataAfter(s, tree, store, rel, ops, k) == Some(PosixRun(FileData(s, tree, store, rel), ops[..k])))
            <==> TameRun(FileData(s, tree, store, rel), BaseOf(s, tree, rel), ops)
  {
    hide RegularFile, FileData, RunOps, ByteRun, PosixRun, BaseOf, SaneRun, TameRun, StoreRun;
    var f, base := FileData(s, tree, store, rel), BaseOf(s, tree, rel);
    forall k | 0 <= k <= |ops| ensures DataAfter(s, tree, store, rel, ops, k) == Some(ByteRun(f, base, ops[..k])) {
      SaneRunPrefix(store, ops, k);
      RunIsByteRun(s, tree, store, rel, ops[..k]);
    }
    RunIsPosixIff(f, base, ops);
  }

  /** No empty write, and no cut below the lower size. */
  predicate Ordinary(base: seq<Byte>, op: FileOp) {
    match op
    case WriteAt(_, data, _) => data != []
    case TruncateTo(size) => |base| <= size
  }

  lemma {:induction false} OrdinaryIsTame(f: seq<Byte>, base: seq<Byte>, ops: seq<FileOp>)
    requires |base| <= |f| && forall i :: 0 <= i < |ops| ==> Ordinary(base, ops[i])
    ensures TameRun(f, base, ops)
    decreases ops
  {
    if ops == [] {
    } else {
      assert Ordinary(base, ops[0]);
      OrdinaryIsTame(PosixOp(f, ops[0]), base, ops[1..]);
    }
  }

  lemma TameRunIsPosix(s: State, tree: Lower, store: Store, rel: Path, ops: seq<FileOp>)
    requires RegularFile(s, tree, store, rel) && SaneRun(store, ops)
    requires TameRun(FileData(s, tree, store, rel), BaseOf(s, tree, rel), ops)
    ensures var t := RunOps(s, tree, rel, ops);
            && t.Some? && RegularFile(t.value, tree, StoreRun(store, ops), rel)
            && FileData(t.value, tree, StoreRun(store, ops), rel) == PosixRun(FileData(s, tree, store, rel), ops)
  {
    hide RegularFile, FileData, RunOps, ByteRun, PosixRun, BaseOf, SaneRun, TameRun;
    RunIsByteRun(s, tree, store, rel, ops);
    RunIsPosixIff(FileData(s, tree, store, rel), BaseOf(s, tree, rel), ops);
    assert ops[..|ops|] == ops;
  }

  lemma NoBase(s: State, tree: Lower, rel: Path)
    requires rel in s.nodes && !s.nodes[rel].fallthrough
    ensures BaseOf(s, tree, rel) == []
  {
  }

  /** A file with no lower backing is a plain byte file under every run of non-empty writes and truncates. */
  lemma PlainFileIsPosix(s: State, tree: Lower, store: Store, rel: Path, ops: seq<FileOp>)
    requires RegularFile(s, tree, store, rel) && SaneRun(store, ops)
    requires rel in s.nodes && !s.nodes[rel].fallthrough
    requires forall i :: 0 <= i < |ops| ==> ops[i].WriteAt? ==> ops[i].data != []
    ensures var t := RunOps(s, tree, rel, ops);
            && t.Some?
            && FileData(t.value, tree, StoreRun(store, ops), rel) == PosixRun(FileData(s, tree, store, rel), ops)
  {
    hide RegularFile, FileData, RunOps, PosixRun, BaseOf, SaneRun, TameRun;
    NoBase(s, tree, rel);
    OrdinaryIsTame(FileData(s, tree, store, rel), [], ops);
    TameRunIsPosix(s, tree, store, rel, ops);
  }

  /** So is a lower-backed file that is never cut below its lower size. */
  lemma FallthroughFileIsPosix(s: State, tree: Lower, store: Store, rel: Path, ops: seq<FileOp>)
    requires RegularFile(s, tree, store, rel) && SaneRun(store, ops)
    requires |BaseOf(s, tree, rel)| <= |FileData(s, tree, store, rel)|
    requires forall i :: 0 <= i < |ops| ==> Ordinary(BaseOf(s, tree, rel), ops[i])
    ensures var t := RunOps(s, tree, rel, ops);
            && t.Some?
            && FileData(t.value, tree, StoreRun(store, ops), rel) == PosixRun(FileData(s, tree, store, rel), ops)
  {
    hide RegularFile, FileData, RunOps, PosixRun, BaseOf, SaneRun, TameRun;
    OrdinaryIsTame(FileData(s, tree, store, rel), BaseOf(s, tree, rel), ops);
    TameRunIsPosix(s, tree, store, rel, ops);
  }
}
