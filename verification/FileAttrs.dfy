/** What writing to a file or truncating it does to the attributes the mount shows for it. */
module FileAttrs {
  import opened Machine
  import opened Paths
  import opened Extents
  import opened Overlay
  import opened EventMeaning
  import opened Lookup
  import opened MergedView
  import opened FileBytes
  import opened FileRuns

  // --------------------------------------------------------- recorded modes

  /** Recorded modes are permission bits only. */
  ghost predicate MaskedModes(overrides: map<Path, Patch>) {
    forall p :: p in overrides && overrides[p].mode.Some? ==> overrides[p].mode.value < 4096
  }

  lemma ApplyKeepsMasks(s: State, ev: Event)
    requires MaskedModes(s.overrides) && Apply(s, ev).Ok?
    ensures MaskedModes(Apply(s, ev).value.overrides)
  {
    hide Apply, Canonical, AtOrBelow, Rebase, SubtreePresent, WriteInto, WriteTarget, HasChildren;
    OpApplied(s, ev);
    if ev.op.Rename? { RenameMasks(s, ev.op.from, ev.op.to, ev.op.fromLower); }
  }

  lemma RenameMasks(s: State, from: Path, to: Path, fromLower: bool)
    requires MaskedModes(s.overrides)
    ensures MaskedModes(DoRename(s, from, to, fromLower).overrides)
  {
    hide AtOrBelow, Rebase, SubtreePresent, MovedSet;
  }

  /** In every state a replay reaches. */
  lemma {:induction false} ReachableMasks(s: State, evs: seq<Event>)
    requires MaskedModes(s.overrides) && Replay(s, evs).Ok?
    ensures MaskedModes(Replay(s, evs).value.overrides)
    decreases evs
  {
    hide Apply, MaskedModes;
    if evs == [] {
    } else {
      ApplyKeepsMasks(s, evs[0]);
      ReachableMasks(Apply(s, evs[0]).value, evs[1..]);
    }
  }

  // --------------------------------------------------------------- operations

  ghost function ShownAttrs(s: State, tree: Lower, rel: Path): Option<Attrs> {
    match Resolve(s, tree, rel)
    case Ok(e) => e.attrs
    case Err(_) => None
  }

  /** The attribute is recorded by an earlier Setattr. */
  predicate Recorded<T>(s: State, rel: Path, field: Patch -> Option<T>) {
    rel in s.overrides && field(s.overrides[rel]).Some?
  }

  /** The lower entry of a file that has no node yet. */
  lemma LowerStat(s: State, tree: Lower, store: Store, rel: Path) returns (st: Stat)
    requires RegularFile(s, tree, store, rel) && rel !in s.nodes
    ensures tree.stat(LowerLocation(s, rel)) == Found(st) && st.ftype == TypeFile && !Hidden(s.whiteouts, rel)
  {
    EdgeSlashes(rel);
    st := tree.stat(LowerLocation(s, rel)).stat;
  }

  lemma WrittenAttrs(s: State, tree: Lower, store: Store, rel: Path, op: FileOp, st: Stat)
    requires RegularFile(s, tree, store, rel) && SaneFileOp(store, op) && op.WriteAt?
    requires rel !in s.nodes && tree.stat(LowerLocation(s, rel)) == Found(st) && !Hidden(s.whiteouts, rel)
    requires st.ftype == TypeFile
    ensures var t := Perform(s, tree, rel, op);
            && t.Some? && rel in t.value.nodes
            && Overridden(t.value.nodes[rel].attrs, s, rel,
                          Attrs(st.attrs.mode % 4096, st.attrs.uid, st.attrs.gid, 0, 0))
  {
    hide RegularFile, Canonical, Hidden, LowerLocation, Apply, WriteInto, SaneFileOp, SizeOfNode;
    WriteAccepted(s, tree, store, rel, op);
    var w := WriteOp(s, tree, rel, op.off, op.data, op.id).value;
    BindWrite(s, Event(s.seqLast + 1, s.lowerId, w));
    AttrsStay(WriteTarget(s, w), w);
  }

  lemma AttrsStay(n: Node, op: Op)
    requires op.Write?
    ensures WriteInto(n, op).attrs == n.attrs
  {
  }

  /**
   The first write to a lower file keeps the mode, owner and group it showed; a time it keeps exactly
   when that time was recorded by a Setattr or is the epoch.
   */
  lemma FirstWriteAttrs(s: State, tree: Lower, store: Store, rel: Path, op: FileOp, st: Stat)
    requires RegularFile(s, tree, store, rel) && SaneFileOp(store, op) && op.WriteAt? && MaskedModes(s.overrides)
    requires rel !in s.nodes && tree.stat(LowerLocation(s, rel)) == Found(st)
    ensures var t := Perform(s, tree, rel, op);
            && t.Some? && ShownAttrs(s, tree, rel).Some? && ShownAttrs(t.value, tree, rel).Some?
            && var before, after := ShownAttrs(s, tree, rel).value, ShownAttrs(t.value, tree, rel).value;
               && after.mode == before.mode && after.uid == before.uid && after.gid == before.gid
               && (after.atime == before.atime <==> Recorded(s, rel, (o: Patch) => o.atime) || st.attrs.atime == 0)
               && (after.mtime == before.mtime <==> Recorded(s, rel, (o: Patch) => o.mtime) || st.attrs.mtime == 0)
  {
    hide RegularFile, Canonical, Hidden, LowerLocation, SaneFileOp, Perform, Resolve;
    var found := LowerStat(s, tree, store, rel);
    WrittenAttrs(s, tree, store, rel, op, st);
    PerformIsByteOp(s, tree, store, rel, op);
    var t := Perform(s, tree, rel, op).value;
    ResolveFile(s, tree, store, rel);
    ResolveFile(t, tree, StoreAfter(store, op), rel);
    LowerEntryFields(s, tree, rel, st);
    NodeEntryFields(t, tree, rel);
  }

  lemma TruncatedAttrs(s: State, tree: Lower, store: Store, rel: Path, op: FileOp)
    requires RegularFile(s, tree, store, rel) && op.TruncateTo? && rel !in s.nodes
    ensures var t := Perform(s, tree, rel, op);
            && t.Some? && rel in t.value.nodes
            && Overridden(t.value.nodes[rel].attrs, s, rel, Attrs(0x1A4, 0, 0, 0, 0))
  {
    hide RegularFile, Canonical, Hidden, LowerLocation, Apply;
    TruncateAccepted(s, tree, store, rel, op.size);
    OpApplied(s, Event(s.seqLast + 1, s.lowerId, Setattr(rel, NO_PATCH, Some(op.size))));
  }

  /**
   Truncating a lower file that has no node yet keeps an attribute it showed exactly when it was recorded
   by a Setattr or equals the fixed default: mode 0644, owner and group 0, times 0.
   */
  lemma FirstTruncateAttrs(s: State, tree: Lower, store: Store, rel: Path, op: FileOp, st: Stat)
    requires RegularFile(s, tree, store, rel) && SaneFileOp(store, op) && op.TruncateTo? && MaskedModes(s.overrides)
    requires rel !in s.nodes && tree.stat(LowerLocation(s, rel)) == Found(st)
    ensures var t := Perform(s, tree, rel, op);
            && t.Some? && ShownAttrs(s, tree, rel).Some? && ShownAttrs(t.value, tree, rel).Some?
            && var before, after := ShownAttrs(s, tree, rel).value, ShownAttrs(t.value, tree, rel).value;
               && (after.mode == before.mode <==>
                     Recorded(s, rel, (o: Patch) => o.mode) || st.attrs.mode % 4096 == 0x1A4)
               && (after.uid == before.uid <==> Recorded(s, rel, (o: Patch) => o.uid) || st.attrs.uid == 0)
               && (after.gid == before.gid <==> Recorded(s, rel, (o: Patch) => o.gid) || st.attrs.gid == 0)
               && (after.atime == before.atime <==> Recorded(s, rel, (o: Patch) => o.atime) || st.attrs.atime == 0)
               && (after.mtime == before.mtime <==> Recorded(s, rel, (o: Patch) => o.mtime) || st.attrs.mtime == 0)
  {
    hide RegularFile, Canonical, Hidden, LowerLocation, SaneFileOp, Perform, Resolve;
    var found := LowerStat(s, tree, store, rel);
    TruncatedAttrs(s, tree, store, rel, op);
    PerformIsByteOp(s, tree, store, rel, op);
    var t := Perform(s, tree, rel, op).value;
    ResolveFile(s, tree, store, rel);
    ResolveFile(t, tree, StoreAfter(store, op), rel);
    LowerEntryFields(s, tree, rel, st);
    NodeEntryFields(t, tree, rel);
  }

  lemma NodeAttrsStay(s: State, tree: Lower, store: Store, rel: Path, op: FileOp)
    requires RegularFile(s, tree, store, rel) && SaneFileOp(store, op) && rel in s.nodes
    ensures var t := Perform(s, tree, rel, op);
            t.Some? && rel in t.value.nodes && t.value.nodes[rel].attrs == s.nodes[rel].attrs
  {
    hide RegularFile, Canonical, Hidden, LowerLocation, Apply, WriteInto, SaneFileOp, Resolve;
    if op.WriteAt? {
      WriteAccepted(s, tree, store, rel, op);
      var w := WriteOp(s, tree, rel, op.off, op.data, op.id).value;
      BindWrite(s, Event(s.seqLast + 1, s.lowerId, w));
      AttrsStay(s.nodes[rel], w);
    } else {
      TruncateAccepted(s, tree, store, rel, op.size);
      OpApplied(s, Event(s.seqLast + 1, s.lowerId, Setattr(rel, NO_PATCH, Some(op.size))));
    }
  }

  /** Writing to or truncating a file that has its node changes no attribute. */
  lemma LaterOpsKeepAttrs(s: State, tree: Lower, store: Store, rel: Path, op: FileOp)
    requires RegularFile(s, tree, store, rel) && SaneFileOp(store, op) && rel in s.nodes
    ensures var t := Perform(s, tree, rel, op);
            t.Some? && ShownAttrs(t.value, tree, rel) == ShownAttrs(s, tree, rel) != None
  {
    hide RegularFile, Canonical, Hidden, LowerLocation, SaneFileOp, Perform, Resolve;
    NodeAttrsStay(s, tree, store, rel, op);
    PerformIsByteOp(s, tree, store, rel, op);
    var t := Perform(s, tree, rel, op).value;
    ResolveFile(s, tree, store, rel);
    ResolveFile(t, tree, StoreAfter(store, op), rel);
    NodeEntryFields(s, tree, rel);
    NodeEntryFields(t, tree, rel);
  }
}
