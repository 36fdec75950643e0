/**
 The overlay state and the fold that builds it: every event is one function on
 a value holding the four maps (nodes, whiteouts, overrides, redirects), the
 bound lower id and the last applied sequence number.
 */
module Overlay {
  import opened Machine
  import opened Paths
  import opened Extents

  datatype Kind = File | Dir | Symlink

  datatype Attrs = Attrs(mode: nat, uid: nat, gid: nat, atime: int, mtime: int) {

    /** With the permission bits 0o7777 of the mode only. */
    function Shown(): Attrs { this.(mode := mode % 4096) }
  }

  function Pick<T>(o: Option<T>, was: T): T {
    if o.Some? then o.value else was
  }

  function Latest<T>(o: Option<T>, was: Option<T>): Option<T> {
    if o.Some? then o else was
  }

  /** The attributes one Setattr names, and the shape of a recorded override. */
  datatype Patch = Patch(
    mode: Option<nat>, uid: Option<nat>, gid: Option<nat>, atime: Option<int>, mtime: Option<int>) {

    function On(a: Attrs): Attrs {
      Attrs(Pick(mode, a.mode), Pick(uid, a.uid), Pick(gid, a.gid), Pick(atime, a.atime), Pick(mtime, a.mtime))
    }

    function Over(p: Patch): Patch {
      Patch(Latest(mode, p.mode), Latest(uid, p.uid), Latest(gid, p.gid),
        Latest(atime, p.atime), Latest(mtime, p.mtime))
    }

    /** The permission bits 0o7777. */
    function Masked(): Patch {
      this.(mode := if mode.Some? then Some(mode.value % 4096) else None)
    }
  }

  const NO_PATCH := Patch(None, None, None, None, None)

  /** size == -1 means unknown: derived from the extents and the lower size. */
  datatype Node = Node(kind: Kind, attrs: Attrs, size: int, target: string,
                       extents: seq<Extent>, fallthrough: bool, lowerRel: Path)

  datatype State = State(
    lowerId: string,
    nodes: map<Path, Node>,
    whiteouts: set<Path>,
    overrides: map<Path, Patch>,
    redirects: map<Path, Path>,
    seqLast: nat)

  const EMPTY := State("", map[], {}, map[], map[], 0)

  datatype Op =
    | SessionStart
    | Create(path: Path, mode: nat, uid: nat, gid: nat)
    | Mkdir(path: Path, mode: nat, uid: nat, gid: nat)
    | MakeSymlink(path: Path, target: string, uid: nat, gid: nat)
    | Write(path: Path, offset: int, length: nat, blob: BlobId, blobOffset: nat, eof: bool,
            mode: nat, sparse: bool, uid: nat, gid: nat)
    | Unlink(path: Path)
    | Rmdir(path: Path)
    | Rename(from: Path, to: Path, fromLower: bool)
    | Setattr(path: Path, patch: Patch, newSize: Option<nat>)
    | UnknownOp

  datatype Event = Event(seqNo: nat, lowerId: string, op: Op)

  datatype Error =
    | SeqOutOfOrder | LowerIdChanged | BadPath | NotFile | IsDir | NotDir | Exists | NotEmpty | NoEntry | BadOp

  // ------------------------------------------------------------ preconditions

  predicate DirectChild(p: Path, dir: Path) {
    Below(p, dir) && '/' !in p[|dir| + 1..]
  }

  predicate HasChildren(s: State, dir: Path) {
    exists p | p in s.nodes :: DirectChild(p, dir)
  }

  /** An overlay node or a redirect lives at dir or below it. */
  predicate SubtreePresent(s: State, dir: Path) {
    || (exists p | p in s.nodes :: AtOrBelow(p, dir))
    || (exists p | p in s.redirects :: AtOrBelow(p, dir))
  }

  function CheckFresh(s: State, p: Path): Option<Error> {
    if !Canonical(p) then Some(BadPath)
    else if p in s.nodes then Some(Exists)
    else None
  }

  function CheckRename(s: State, from: Path, to: Path, fromLower: bool): Option<Error> {
    if !Canonical(from) || !Canonical(to) then Some(BadPath)
    else if from == to then None
    else if Below(to, from) then Some(BadPath)
    else if !SubtreePresent(s, from) && !fromLower then Some(NoEntry)
    else None
  }

  function CheckOp(s: State, op: Op): Option<Error> {
    match op
    case SessionStart => None
    case Create(p, _, _, _) => CheckFresh(s, p)
    case Mkdir(p, _, _, _) => CheckFresh(s, p)
    case MakeSymlink(p, _, _, _) => CheckFresh(s, p)
    case Write(p, _, _, _, _, _, _, _, _, _) =>
      if !Canonical(p) then Some(BadPath)
      else if p in s.nodes && s.nodes[p].kind != File then Some(NotFile)
      else None
    case Unlink(p) =>
      if !Canonical(p) then Some(BadPath)
      else if p in s.nodes && s.nodes[p].kind == Dir then Some(IsDir)
      else None
    case Rmdir(p) =>
      if !Canonical(p) then Some(BadPath)
      else if p in s.nodes && s.nodes[p].kind != Dir then Some(NotDir)
      else if p in s.nodes && HasChildren(s, p) then Some(NotEmpty)
      else None
    case Rename(from, to, fromLower) => CheckRename(s, from, to, fromLower)
    case Setattr(p, _, size) =>
      if !Canonical(p) then Some(BadPath)
      else if p in s.nodes && size.Some? && s.nodes[p].kind != File then Some(NotFile)
      else None
    case UnknownOp => Some(BadOp)
  }

  /** Whether Apply would accept the event, whatever fresh sequence number it is stamped with. */
  function Check(s: State, ev: Event): Option<Error> {
    if ev.lowerId != "" && s.lowerId != "" && s.lowerId != ev.lowerId then Some(LowerIdChanged)
    else CheckOp(s, ev.op)
  }

  // ---------------------------------------------------------------- mutations

  function FreshNode(kind: Kind, mode: nat, uid: nat, gid: nat): Node {
    Node(kind, Attrs(mode, uid, gid, 0, 0), 0, "", [], false, "")
  }

  function AbsorbOverride(s: State, p: Path, a: Attrs): Attrs {
    if p in s.overrides then s.overrides[p].On(a) else a
  }

  /** The node a write lands in: the existing one, or a new (possibly lower-backed) one. */
  function WriteTarget(s: State, op: Op): Node
    requires op.Write?
  {
    if op.path in s.nodes then s.nodes[op.path]
    else if op.sparse then
      Node(File, AbsorbOverride(s, op.path, Attrs(op.mode, op.uid, op.gid, 0, 0)), -1, "", [], true, op.path)
    else FreshNode(File, op.mode, 0, 0)
  }

  function WriteInto(n: Node, op: Op): Node
    requires op.Write?
  {
    var xs := if op.length > 0
              then Insert(n.extents, Extent(op.offset, op.length, op.blob, op.blobOffset))
              else n.extents;
    var end := Int64(op.offset + op.length);
    if op.eof then n.(size := end, extents := Clip(xs, end))
    else if !n.fallthrough && n.size < end then n.(size := end, extents := xs)
    else n.(extents := xs)
  }

  function DoWrite(s: State, op: Op): State
    requires op.Write?
  {
    var absorbed := op.path !in s.nodes && op.sparse;
    s.(nodes := s.nodes[op.path := WriteInto(WriteTarget(s, op), op)],
       overrides := if absorbed then s.overrides - {op.path} else s.overrides)
  }

  function DoRemove(s: State, p: Path): State {
    if p in s.nodes then s.(nodes := s.nodes - {p}) else s.(whiteouts := s.whiteouts + {p})
  }

  function Resize(n: Node, size: nat): Node {
    n.(size := Int64(size), extents := Clip(n.extents, Int64(size)))
  }

  function DoSetattr(s: State, p: Path, patch: Patch, size: Option<nat>): State {
    if p in s.nodes then
      var n := s.nodes[p].(attrs := patch.Masked().On(s.nodes[p].attrs));
      s.(nodes := s.nodes[p := if size.Some? then Resize(n, size.value) else n])
    else if size.Some? then
      var a := patch.Masked().On(AbsorbOverride(s, p, Attrs(420, 0, 0, 0, 0)));
      s.(nodes := s.nodes[p := Node(File, a, Int64(size.value), "", [], true, p)],
         overrides := s.overrides - {p})
    else
      var prior := if p in s.overrides then s.overrides[p] else NO_PATCH;
      s.(overrides := s.overrides[p := patch.Masked().Over(prior)])
  }

  // ------------------------------------------------------------------- rename

  /** The map without the subtree at dir. */
  function Pruned<V>(m: map<Path, V>, dir: Path): map<Path, V> {
    map p | p in m && !AtOrBelow(p, dir) :: m[p]
  }

  function PrunedSet(ps: set<Path>, dir: Path): set<Path> {
    set p | p in ps && !AtOrBelow(p, dir)
  }

  /** Where key q of a re-keyed map came from. */
  function Origin(q: Path, from: Path, to: Path): Path {
    if AtOrBelow(q, to) then Rebase(q, to, from) else q
  }

  /** The map with the subtree at `from` re-keyed to live at `to`. */
  function Moved<V>(m: map<Path, V>, from: Path, to: Path): map<Path, V> {
    var keys := set p | p in m :: Rebase(p, from, to);
    map q | q in keys && Origin(q, from, to) in m :: m[Origin(q, from, to)]
  }

  /** Whiteouts move only from strictly below `from`. */
  function WhiteoutTarget(p: Path, from: Path, to: Path): Path {
    if Below(p, from) then Rebase(p, from, to) else p
  }

  function MovedSet(ps: set<Path>, from: Path, to: Path): set<Path> {
    set p | p in ps :: WhiteoutTarget(p, from, to)
  }

  function Cleared(s: State, dir: Path): State {
    s.(nodes := Pruned(s.nodes, dir), redirects := Pruned(s.redirects, dir),
       whiteouts := PrunedSet(s.whiteouts, dir), overrides := Pruned(s.overrides, dir))
  }

  function MovedSubtree(s: State, from: Path, to: Path): State {
    s.(nodes := Moved(s.nodes, from, to), redirects := Moved(s.redirects, from, to),
       whiteouts := MovedSet(s.whiteouts, from, to), overrides := Moved(s.overrides, from, to))
  }

  /** A purely lower-backed rename: the destination reads through to `from`. */
  function Redirected(s: State, from: Path, to: Path): State {
    s.(redirects := s.redirects[to := from],
       whiteouts := MovedSet(s.whiteouts, from, to), overrides := Moved(s.overrides, from, to))
  }

  function WithWhiteout(s: State, p: Path, really: bool): State {
    if really then s.(whiteouts := s.whiteouts + {p}) else s
  }

  function DoRename(s: State, from: Path, to: Path, fromLower: bool): State {
    if from == to then s
    else
      var c := Cleared(s, to);
      if SubtreePresent(c, from)
      then WithWhiteout(MovedSubtree(c, from, to), from, fromLower)
      else Redirected(WithWhiteout(c, from, fromLower), from, to)
  }

  // --------------------------------------------------------------------- fold

  function DoOp(s: State, op: Op): State {
    match op
    case SessionStart => s
    case Create(p, mode, uid, gid) => s.(nodes := s.nodes[p := FreshNode(File, mode, uid, gid)])
    case Mkdir(p, mode, uid, gid) => s.(nodes := s.nodes[p := FreshNode(Dir, mode, uid, gid)])
    case MakeSymlink(p, target, uid, gid) =>
      s.(nodes := s.nodes[p := FreshNode(Symlink, 511, uid, gid).(target := target)])
    case Write(_, _, _, _, _, _, _, _, _, _) => DoWrite(s, op)
    case Unlink(p) => DoRemove(s, p)
    case Rmdir(p) => DoRemove(s, p)
    case Rename(from, to, fromLower) => DoRename(s, from, to, fromLower)
    case Setattr(p, patch, size) => DoSetattr(s, p, patch, size)
    case UnknownOp => s
  }

  function Bind(s: State, ev: Event): State {
    if ev.lowerId != "" then s.(lowerId := ev.lowerId) else s
  }

  /** Applying one event: refused out of order or when Check refuses it, else one fold step. */
  function Apply(s: State, ev: Event): Result<State, Error> {
    if ev.seqNo <= s.seqLast then Err(SeqOutOfOrder)
    else match Check(s, ev)
      case Some(e) => Err(e)
      case None => Ok(DoOp(Bind(s, ev), ev.op).(seqLast := ev.seqNo))
  }

  /** Applying an ordered event list; the first refusal stops it. */
  function Replay(s: State, evs: seq<Event>): Result<State, Error>
    decreases evs
  {
    if evs == [] then Ok(s)
    else match Apply(s, evs[0])
      case Ok(s') => Replay(s', evs[1..])
      case Err(e) => Err(e)
  }

  /** Check, run before the number is stamped, decides what Apply decides after. */
  lemma CheckPredictsApply(s: State, ev: Event)
    ensures s.seqLast < ev.seqNo ==> (Apply(s, ev).Ok? <==> Check(s, ev).None?)
    ensures forall n :: Check(s, ev.(seqNo := n)) == Check(s, ev)
  {
    hide CheckOp, DoOp;
  }

  lemma {:induction false} ReplayAppend(s: State, a: seq<Event>, b: seq<Event>)
    ensures Replay(s, a + b) == match Replay(s, a) { case Ok(m) => Replay(m, b) case Err(e) => Err(e) }
    decreases a
  {
    if a == [] {
      assert a + b == b;
    } else {
      assert (a + b)[0] == a[0] && (a + b)[1..] == a[1..] + b;
      match Apply(s, a[0])
      case Ok(m) => ReplayAppend(m, a[1..], b);
      case Err(_) =>
    }
  }

  // -------------------------------------------------------------- invariants

  ghost predicate CleanKeys(s: State) {
    && (forall p :: p in s.nodes ==> Canonical(p))
    && (forall p :: p in s.whiteouts ==> Canonical(p))
    && (forall p :: p in s.overrides ==> Canonical(p))
    && (forall p :: p in s.redirects ==> Canonical(p) && Canonical(s.redirects[p]))
  }

  ghost predicate SoundNode(n: Node) {
    && Compact(n.extents)
    && (n.kind != File ==> n.extents == [] && !n.fallthrough)
    && (n.fallthrough ==> -1 <= n.size && Canonical(n.lowerRel))
    && (!n.fallthrough ==> 0 <= n.size && Within(n.extents, n.size))
  }

  ghost predicate SoundNodes(nodes: map<Path, Node>) {
    forall p :: p in nodes ==> SoundNode(nodes[p])
  }

  ghost predicate Sound(s: State) {
    CleanKeys(s) && SoundNodes(s.nodes)
  }

  /** The numeric hypothesis on events: no range or size passes 2^63, no blob range wraps. */
  ghost predicate SaneOp(op: Op) {
    && (op.Write? ==> 0 <= op.offset && op.offset + op.length < TWO63 && op.blobOffset + op.length < TWO64)
    && (op.Setattr? && op.newSize.Some? ==> op.newSize.value < TWO63)
  }

  ghost predicate AllClean(ps: set<Path>) {
    forall p :: p in ps ==> Canonical(p)
  }

  lemma MovedClean<V>(m: map<Path, V>, from: Path, to: Path)
    requires AllClean(m.Keys) && Canonical(to)
    ensures AllClean(Moved(m, from, to).Keys)
  {
    forall q | q in Moved(m, from, to) ensures Canonical(q) {
      var p :| p in m && q == Rebase(p, from, to);
      RebaseCanonical(p, from, to);
    }
  }

  lemma MovedSetClean(ps: set<Path>, from: Path, to: Path)
    requires AllClean(ps) && Canonical(to)
    ensures AllClean(MovedSet(ps, from, to))
  {
    forall q | q in MovedSet(ps, from, to) ensures Canonical(q) {
      var p :| p in ps && q == WhiteoutTarget(p, from, to);
      RebaseCanonical(p, from, to);
    }
  }

  lemma ClearedClean(s: State, dir: Path)
    requires CleanKeys(s)
    ensures CleanKeys(Cleared(s, dir))
  {
  }

  lemma MovedSubtreeClean(s: State, from: Path, to: Path)
    requires CleanKeys(s) && Canonical(to)
    ensures CleanKeys(MovedSubtree(s, from, to))
  {
    MovedClean(s.nodes, from, to);
    MovedClean(s.redirects, from, to);
    MovedClean(s.overrides, from, to);
    MovedSetClean(s.whiteouts, from, to);
    var r := MovedSubtree(s, from, to);
    assert forall q :: q in r.nodes ==> q in r.nodes.Keys;
    assert forall q :: q in r.redirects ==> q in r.redirects.Keys && r.redirects[q] == s.redirects[Origin(q, from, to)];
    assert forall q :: q in r.overrides ==> q in r.overrides.Keys;
  }

  lemma RedirectedClean(s: State, from: Path, to: Path)
    requires CleanKeys(s) && Canonical(from) && Canonical(to)
    ensures CleanKeys(Redirected(s, from, to))
  {
    MovedClean(s.overrides, from, to);
    MovedSetClean(s.whiteouts, from, to);
    assert forall q :: q in Moved(s.overrides, from, to) ==> q in Moved(s.overrides, from, to).Keys;
  }

  lemma RenameClean(s: State, from: Path, to: Path, fromLower: bool)
    requires CleanKeys(s) && Canonical(from) && Canonical(to)
    ensures CleanKeys(DoRename(s, from, to, fromLower))
  {
    hide Canonical, SubtreePresent, Moved, MovedSet, Pruned, PrunedSet;
    if from != to {
      ClearedClean(s, to);
      var c := Cleared(s, to);
      if SubtreePresent(c, from) {
        MovedSubtreeClean(c, from, to);
      } else {
        RedirectedClean(WithWhiteout(c, from, fromLower), from, to);
      }
    }
  }

  /** No accepted operation, whatever its numbers, introduces a key that is not a canonical path. */
  lemma OpClean(s: State, op: Op)
    requires CleanKeys(s) && CheckOp(s, op).None?
    ensures CleanKeys(DoOp(s, op))
  {
    hide Canonical, HasChildren, SubtreePresent, DoRename, WriteInto, WriteTarget;
    if op.Rename? { RenameClean(s, op.from, op.to, op.fromLower); }
  }

  lemma WriteKeepsSoundNode(n: Node, op: Op)
    requires op.Write? && SaneOp(op) && SoundNode(n) && n.kind == File
    ensures SoundNode(WriteInto(n, op))
  {
    hide Canonical;
    var e := Extent(op.offset, op.length, op.blob, op.blobOffset);
    if op.length > 0 { InsertMeaning(n.extents, e); }
    var xs := if op.length > 0 then Insert(n.extents, e) else n.extents;
    ClipMeaning(xs, op.offset + op.length);
  }

  lemma ResizeSound(n: Node, size: nat)
    requires SoundNode(n) && n.kind == File && size < TWO63
    ensures SoundNode(Resize(n, size))
  {
    hide Canonical;
    ClipMeaning(n.extents, size);
  }

  lemma SetattrSound(s: State, p: Path, patch: Patch, size: Option<nat>)
    requires SoundNodes(s.nodes) && Canonical(p) && (size.Some? ==> size.value < TWO63)
    requires p in s.nodes && size.Some? ==> s.nodes[p].kind == File
    ensures SoundNodes(DoSetattr(s, p, patch, size).nodes)
  {
    hide Canonical, Resize;
    if p in s.nodes && size.Some? {
      ResizeSound(s.nodes[p].(attrs := patch.Masked().On(s.nodes[p].attrs)), size.value);
    }
  }

  lemma RenameSound(s: State, from: Path, to: Path, fromLower: bool)
    requires SoundNodes(s.nodes)
    ensures SoundNodes(DoRename(s, from, to, fromLower).nodes)
  {
    hide SoundNode, SubtreePresent, AtOrBelow, Rebase;
    assert forall p :: p in Cleared(s, to).nodes ==> Cleared(s, to).nodes[p] == s.nodes[p];
  }

  lemma OpSound(s: State, op: Op)
    requires Sound(s) && SaneOp(op) && CheckOp(s, op).None?
    ensures Sound(DoOp(s, op))
  {
    OpClean(s, op);
    assert SoundNodes(DoOp(s, op).nodes) by {
      hide Canonical, CleanKeys, DoRename, DoSetattr, HasChildren, SubtreePresent, WriteInto;
      match op
      case Write(_, _, _, _, _, _, _, _, _, _) => WriteKeepsSoundNode(WriteTarget(s, op), op);
      case Rename(from, to, fl) => RenameSound(s, from, to, fl);
      case Setattr(p, patch, size) => SetattrSound(s, p, patch, size);
      case _ =>
    }
  }

  /** What every step keeps: clean keys, canonical extent lists, no extent past an explicit size. */
  lemma ApplyKeepsSound(s: State, ev: Event)
    requires Sound(s) && SaneOp(ev.op)
    ensures Apply(s, ev).Ok? ==> Sound(Apply(s, ev).value)
  {
    if Apply(s, ev).Ok? {
      var b := Bind(s, ev);
      hide Sound, CheckOp, DoOp, SaneOp;
      SameMaps(s, b, ev.op);
      OpSound(b, ev.op);
      SameMaps(DoOp(b, ev.op), DoOp(b, ev.op).(seqLast := ev.seqNo), ev.op);
    }
  }

  /** The lower id and the sequence number play no part in soundness or in an operation's precondition. */
  lemma SameMaps(s: State, t: State, op: Op)
    requires t == s.(lowerId := t.lowerId, seqLast := t.seqLast)
    ensures Sound(s) ==> Sound(t)
    ensures CheckOp(t, op) == CheckOp(s, op)
  {
    hide Canonical, AtOrBelow, DirectChild, SoundNode;
  }

  /** Every state an event list reaches from a sound one, so from the empty overlay, is sound. */
  lemma {:induction false} ReachableSound(s: State, evs: seq<Event>)
    requires Sound(s) && forall i :: 0 <= i < |evs| ==> SaneOp(evs[i].op)
    ensures Replay(s, evs).Ok? ==> Sound(Replay(s, evs).value)
    decreases evs
  {
    if evs == [] {
    } else {
      ApplyKeepsSound(s, evs[0]);
      if Apply(s, evs[0]).Ok? { ReachableSound(Apply(s, evs[0]).value, evs[1..]); }
    }
  }
}
