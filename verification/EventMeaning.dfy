/**
 What the log's events mean, stated of `Apply` on the maps themselves: which events are accepted, why
 the others are refused, and what an accepted one changes and leaves alone.
 */
module EventMeaning {
  import opened Machine
  import opened Paths
  import opened Extents
  import opened Overlay
  import opened Lookup
  import opened MergedView
  import opened Renames
  import opened RenamedView

  // --------------------------------------------------------------- acceptance

  /** The event and the state do not name two different lower trees. */
  predicate SameLower(s: State, ev: Event) {
    ev.lowerId == "" || s.lowerId == "" || ev.lowerId == s.lowerId
  }

  /** No overlay node lies directly inside p. */
  ghost predicate NoneInside(s: State, p: Path) {
    forall c: string :: '/' !in c ==> p + "/" + c !in s.nodes
  }

  /** Some overlay node or redirect lies at p or below it. */
  ghost predicate SomeAtOrBelow(s: State, p: Path) {
    exists q :: (q in s.nodes || q in s.redirects) && (q == p || (|p| < |q| && q[..|p|] == p && q[|p|] == '/'))
  }

  /** What the maps must hold for the operation. */
  ghost predicate Fits(s: State, op: Op) {
    match op
    case SessionStart => true
    case Create(p, _, _, _) => Canonical(p) && p !in s.nodes
    case Mkdir(p, _, _, _) => Canonical(p) && p !in s.nodes
    case MakeSymlink(p, _, _, _) => Canonical(p) && p !in s.nodes
    case Write(p, _, _, _, _, _, _, _, _, _) => Canonical(p) && (p in s.nodes ==> s.nodes[p].kind == File)
    case Unlink(p) => Canonical(p) && (p in s.nodes ==> s.nodes[p].kind != Dir)
    case Rmdir(p) => Canonical(p) && (p in s.nodes ==> s.nodes[p].kind == Dir && NoneInside(s, p))
    case Rename(from, to, fromLower) =>
      && Canonical(from) && Canonical(to)
      && (from == to || (!Below(to, from) && (fromLower || SomeAtOrBelow(s, from))))
    case Setattr(p, _, size) => Canonical(p) && (p in s.nodes && size.Some? ==> s.nodes[p].kind == File)
    case UnknownOp => false
  }

  lemma NoneInsideIff(s: State, p: Path)
    ensures NoneInside(s, p) <==> !HasChildren(s, p)
  {
    if q :| q in s.nodes && DirectChild(q, p) {
      var c := q[|p| + 1..];
      assert q == p + "/" + c;
    }
    if c: string :| '/' !in c && p + "/" + c in s.nodes {
      var q := p + "/" + c;
      assert q[..|p|] == p && q[|p|] == '/' && q[|p| + 1..] == c;
      assert DirectChild(q, p);
    }
  }

  lemma SomeAtOrBelowIff(s: State, p: Path)
    ensures SomeAtOrBelow(s, p) <==> SubtreePresent(s, p)
  {
    if q :| (q in s.nodes || q in s.redirects) && (q == p || (|p| < |q| && q[..|p|] == p && q[|p|] == '/')) {
      assert AtOrBelow(q, p);
    }
    if q :| q in s.nodes && AtOrBelow(q, p) {
      assert q == p || (|p| < |q| && q[..|p|] == p && q[|p|] == '/');
    } else if q :| q in s.redirects && AtOrBelow(q, p) {
      assert q == p || (|p| < |q| && q[..|p|] == p && q[|p|] == '/');
    }
  }

  /** Exactly the events that fit the maps, name no other lower tree and carry a fresh number are accepted. */
  lemma AcceptedIff(s: State, ev: Event)
    ensures Apply(s, ev).Ok? <==> s.seqLast < ev.seqNo && SameLower(s, ev) && Fits(s, ev.op)
  {
    hide DoOp, Canonical, NoneInside, SomeAtOrBelow, HasChildren, SubtreePresent;
    if ev.op.Rmdir? { NoneInsideIff(s, ev.op.path); }
    if ev.op.Rename? { SomeAtOrBelowIff(s, ev.op.from); }
  }

  /** Why an event is refused. */
  lemma RefusalReason(s: State, ev: Event)
    requires Apply(s, ev).Err?
    ensures Apply(s, ev).error ==
            if ev.seqNo <= s.seqLast then SeqOutOfOrder
            else if !SameLower(s, ev) then LowerIdChanged
            else match ev.op
              case SessionStart => BadOp
              case Create(p, _, _, _) => if Canonical(p) then Exists else BadPath
              case Mkdir(p, _, _, _) => if Canonical(p) then Exists else BadPath
              case MakeSymlink(p, _, _, _) => if Canonical(p) then Exists else BadPath
              case Write(p, _, _, _, _, _, _, _, _, _) => if Canonical(p) then NotFile else BadPath
              case Unlink(p) => if Canonical(p) then IsDir else BadPath
              case Rmdir(p) =>
                if !Canonical(p) then BadPath
                else if p in s.nodes && s.nodes[p].kind != Dir then NotDir else NotEmpty
              case Rename(from, to, _) =>
                if Canonical(from) && Canonical(to) && !Below(to, from) then NoEntry else BadPath
              case Setattr(p, _, _) => if Canonical(p) then NotFile else BadPath
              case UnknownOp => BadOp
  {
    hide DoOp, Canonical, HasChildren, SubtreePresent;
  }

  // ------------------------------------------------------------------ effects

  /** The name and the number after an accepted event. */
  lemma NameAndNumber(s: State, ev: Event)
    requires Apply(s, ev).Ok?
    ensures var r := Apply(s, ev).value;
            r.seqLast == ev.seqNo && r.lowerId == if ev.lowerId == "" then s.lowerId else ev.lowerId
  {
    hide CheckOp, DoOp;
    OpKeepsName(Bind(s, ev), ev.op);
  }

  lemma OpKeepsName(s: State, op: Op)
    ensures DoOp(s, op).lowerId == s.lowerId
  {
    hide SubtreePresent, WriteInto, WriteTarget, Moved, MovedSet, Pruned, PrunedSet;
  }

  /** Two states with the same maps. */
  ghost predicate SameMapsAs(r: State, d: State) {
    r.nodes == d.nodes && r.whiteouts == d.whiteouts && r.overrides == d.overrides && r.redirects == d.redirects
  }

  /** The operation does not look at the lower tree's name or the sequence number. */
  lemma OpFrame(s: State, t: State, op: Op)
    requires SameMapsAs(t, s)
    ensures SameMapsAs(DoOp(t, op), DoOp(s, op))
  {
    hide WriteInto, DoRename, DoSetattr, WriteTarget;
    if op.Rename? { RenameFrame(s, t, op.from, op.to, op.fromLower); }
    if op.Setattr? { SetattrFrame(s, t, op.path, op.patch, op.newSize); }
    if op.Write? { WriteFrame(s, t, op); }
  }

  lemma SetattrFrame(s: State, t: State, p: Path, patch: Patch, size: Option<nat>)
    requires SameMapsAs(t, s)
    ensures SameMapsAs(DoSetattr(t, p, patch, size), DoSetattr(s, p, patch, size))
  {
  }

  lemma WriteFrame(s: State, t: State, op: Op)
    requires SameMapsAs(t, s) && op.Write?
    ensures WriteTarget(t, op) == WriteTarget(s, op)
  {
  }

  lemma OpApplied(s: State, ev: Event)
    requires Apply(s, ev).Ok?
    ensures SameMapsAs(Apply(s, ev).value, DoOp(s, ev.op)) && CheckOp(s, ev.op).None?
  {
    hide CheckOp, DoOp;
    OpFrame(s, Bind(s, ev), ev.op);
  }

  /** A session's start mark changes no map. */
  lemma StartMarks(s: State, ev: Event)
    requires Apply(s, ev).Ok? && ev.op.SessionStart?
    ensures Apply(s, ev).value == s.(seqLast := ev.seqNo, lowerId := if ev.lowerId == "" then s.lowerId else ev.lowerId)
  {
  }

  /** create, mkdir and symlink: one new node, empty and as asked for, and nothing else. */
  lemma MadeNode(s: State, ev: Event)
    requires Apply(s, ev).Ok? && (ev.op.Create? || ev.op.Mkdir? || ev.op.MakeSymlink?)
    ensures var r, p := Apply(s, ev).value, ev.op.path;
            && p !in s.nodes && r.nodes.Keys == s.nodes.Keys + {p}
            && (forall q :: q in s.nodes ==> r.nodes[q] == s.nodes[q])
            && r.whiteouts == s.whiteouts && r.overrides == s.overrides && r.redirects == s.redirects
            && r.nodes[p].size == 0 && r.nodes[p].extents == [] && !r.nodes[p].fallthrough
            && r.nodes[p].attrs.uid == ev.op.uid && r.nodes[p].attrs.gid == ev.op.gid
            && r.nodes[p].attrs.atime == 0 && r.nodes[p].attrs.mtime == 0
            && (ev.op.Create? ==> r.nodes[p].kind == File && r.nodes[p].attrs.mode == ev.op.mode)
            && (ev.op.Mkdir? ==> r.nodes[p].kind == Dir && r.nodes[p].attrs.mode == ev.op.mode)
            && (ev.op.MakeSymlink? ==>
                  r.nodes[p].kind == Symlink && r.nodes[p].target == ev.op.target && r.nodes[p].attrs.mode == 0x1FF)
  {
    hide Canonical, Apply;
    OpApplied(s, ev);
  }

  /** unlink and rmdir: an overlay node is dropped, any other path is whiteouted, and nothing else changes. */
  lemma RemovedEntry(s: State, ev: Event)
    requires Apply(s, ev).Ok? && (ev.op.Unlink? || ev.op.Rmdir?)
    ensures var r, p := Apply(s, ev).value, ev.op.path;
            && r.overrides == s.overrides && r.redirects == s.redirects
            && r.nodes == s.nodes - {p}
            && r.whiteouts == if p in s.nodes then s.whiteouts else s.whiteouts + {p}
  {
    hide Canonical, HasChildren, Apply;
    OpApplied(s, ev);
    assert ev.op.path !in s.nodes ==> s.nodes - {ev.op.path} == s.nodes;
  }

  /** After an accepted removal the path is visible iff a node shadowed a live twin, and no other path changes. */
  lemma RemovalShown(s: State, tree: Lower, ev: Event, x: Path)
    requires Apply(s, ev).Ok? && (ev.op.Unlink? || ev.op.Rmdir?)
    ensures var r, p := Apply(s, ev).value, ev.op.path;
            HealthyAt(tree, LowerLocation(s, p)) ==>
              (Present(r, tree, p) <==>
                 p in s.nodes && !Hidden(s.whiteouts, p) && tree.stat(LowerLocation(s, p)).Found?)
    ensures !AtOrBelow(x, ev.op.path) ==> Resolve(Apply(s, ev).value, tree, x) == Resolve(s, tree, x)
  {
    hide Apply, Resolve, Hidden, LowerPath, AtOrBelow, HealthyAt;
    var r, d, p := Apply(s, ev).value, DoRemove(s, ev.op.path), ev.op.path;
    RemovedEntry(s, ev);
    assert p !in s.nodes ==> s.nodes - {p} == s.nodes;
    SameMapsSameView(d, r, tree, p);
    SameMapsSameView(d, r, tree, x);
    if HealthyAt(tree, LowerLocation(s, p)) { RemovedUnlessShadowed(s, tree, p); }
    if !AtOrBelow(x, p) { RemovalLeavesOthers(s, tree, p, x); }
  }

  /** Neither the lower tree's name nor the sequence number plays a part in what is shown. */
  lemma SameMapsSameView(s: State, r: State, tree: Lower, x: Path)
    requires SameMapsAs(r, s)
    ensures Resolve(r, tree, x) == Resolve(s, tree, x) && LowerLocation(r, x) == LowerLocation(s, x)
  {
    ResolveFrame(s, r, tree, x);
  }

  /** The attributes after a Setattr that names some of them: the rest stay. */
  ghost predicate Adjusted(after: Attrs, patch: Patch, before: Attrs) {
    && (after.mode == if patch.mode.Some? then patch.mode.value % 4096 else before.mode)
    && (after.uid == if patch.uid.Some? then patch.uid.value else before.uid)
    && (after.gid == if patch.gid.Some? then patch.gid.value else before.gid)
    && (after.atime == if patch.atime.Some? then patch.atime.value else before.atime)
    && (after.mtime == if patch.mtime.Some? then patch.mtime.value else before.mtime)
  }

  /** The attributes an override leaves, starting from the given ones. */
  ghost predicate Overridden(after: Attrs, s: State, p: Path, before: Attrs) {
    if p !in s.overrides then after == before
    else
      var o := s.overrides[p];
      && (after.mode == if o.mode.Some? then o.mode.value else before.mode)
      && (after.uid == if o.uid.Some? then o.uid.value else before.uid)
      && (after.gid == if o.gid.Some? then o.gid.value else before.gid)
      && (after.atime == if o.atime.Some? then o.atime.value else before.atime)
      && (after.mtime == if o.mtime.Some? then o.mtime.value else before.mtime)
  }

  /** Setattr of a path with a node: that node's attributes and, for a truncate, its size and extents. */
  lemma SetNode(s: State, ev: Event)
    requires Apply(s, ev).Ok? && ev.op.Setattr? && ev.op.path in s.nodes
    requires Tidy(s.nodes[ev.op.path].extents) && SaneOp(ev.op)
    ensures var r, p := Apply(s, ev).value, ev.op.path;
            && r.nodes.Keys == s.nodes.Keys && (forall q :: q in s.nodes && q != p ==> r.nodes[q] == s.nodes[q])
            && r.whiteouts == s.whiteouts && r.overrides == s.overrides && r.redirects == s.redirects
    ensures var n, m := s.nodes[ev.op.path], Apply(s, ev).value.nodes[ev.op.path];
            && Adjusted(m.attrs, ev.op.patch, n.attrs)
            && m.kind == n.kind && m.target == n.target && m.fallthrough == n.fallthrough && m.lowerRel == n.lowerRel
            && (ev.op.newSize.None? ==> m.size == n.size && m.extents == n.extents)
            && (ev.op.newSize.Some? ==>
                  && m.size == ev.op.newSize.value
                  && forall i :: At(m.extents, i) == if i < ev.op.newSize.value then At(n.extents, i) else None)
  {
    hide Canonical, At, TidyFrom, Apply, Clip;
    OpApplied(s, ev);
    if ev.op.newSize.Some? { ClipMeaning(s.nodes[ev.op.path].extents, ev.op.newSize.value); }
  }

  /** Truncating a path with no node: an empty node over the lower file, with the recorded override absorbed. */
  lemma SetLowerSize(s: State, ev: Event)
    requires Apply(s, ev).Ok? && ev.op.Setattr? && ev.op.path !in s.nodes && ev.op.newSize.Some? && SaneOp(ev.op)
    ensures var r, p := Apply(s, ev).value, ev.op.path;
            && r.nodes.Keys == s.nodes.Keys + {p} && (forall q :: q in s.nodes ==> r.nodes[q] == s.nodes[q])
            && r.whiteouts == s.whiteouts && r.redirects == s.redirects && r.overrides == s.overrides - {p}
            && r.nodes[p].kind == File && r.nodes[p].size == ev.op.newSize.value && r.nodes[p].extents == []
            && r.nodes[p].fallthrough && r.nodes[p].lowerRel == p
            && exists a :: Overridden(a, s, p, Attrs(0x1A4, 0, 0, 0, 0)) && Adjusted(r.nodes[p].attrs, ev.op.patch, a)
  {
    hide Canonical, Apply;
    OpApplied(s, ev);
    var a := AbsorbOverride(s, ev.op.path, Attrs(0x1A4, 0, 0, 0, 0));
    assert Overridden(a, s, ev.op.path, Attrs(0x1A4, 0, 0, 0, 0));
    assert Adjusted(Apply(s, ev).value.nodes[ev.op.path].attrs, ev.op.patch, a);
  }

  /** Setattr of a lower-backed path: the named attributes are recorded over the earlier ones, nothing else. */
  lemma SetOverride(s: State, ev: Event)
    requires Apply(s, ev).Ok? && ev.op.Setattr? && ev.op.path !in s.nodes && ev.op.newSize.None?
    ensures var r, p := Apply(s, ev).value, ev.op.path;
            && r.nodes == s.nodes && r.whiteouts == s.whiteouts && r.redirects == s.redirects
            && r.overrides.Keys == s.overrides.Keys + {p}
            && (forall q :: q in s.overrides && q != p ==> r.overrides[q] == s.overrides[q])
            && var o, was, patch := r.overrides[p], Get(s.overrides, Some(p)), ev.op.patch;
               && (o.mode == if patch.mode.Some? then Some(patch.mode.value % 4096)
                             else if was.Some? then was.value.mode else None)
               && (o.uid == if patch.uid.Some? then patch.uid else if was.Some? then was.value.uid else None)
               && (o.gid == if patch.gid.Some? then patch.gid else if was.Some? then was.value.gid else None)
               && (o.atime == if patch.atime.Some? then patch.atime else if was.Some? then was.value.atime else None)
               && (o.mtime == if patch.mtime.Some? then patch.mtime else if was.Some? then was.value.mtime else None)
  {
    hide Canonical, Apply;
    OpApplied(s, ev);
    var prior := if ev.op.path in s.overrides then s.overrides[ev.op.path] else NO_PATCH;
    assert Apply(s, ev).value.overrides == s.overrides[ev.op.path := ev.op.patch.Masked().Over(prior)];
    hide DoOp, CheckOp;
  }

  /** The node a write goes to, before it: the recorded one, or a new one over nothing or over the lower file. */
  ghost predicate WriteStarts(n: Node, s: State, op: Op)
    requires op.Write?
  {
    if op.path in s.nodes then n == s.nodes[op.path]
    else
      && n.kind == File && n.extents == [] && n.target == "" && n.fallthrough == op.sparse
      && (op.sparse ==>
            && n.size == -1 && n.lowerRel == op.path
            && Overridden(n.attrs, s, op.path, Attrs(op.mode, op.uid, op.gid, 0, 0)))
      && (!op.sparse ==> n.size == 0 && n.attrs == Attrs(op.mode, 0, 0, 0, 0))
  }

  /** write: the extents are overridden on the written range and cut at an end-of-file mark, and the size follows. */
  lemma WrittenNode(s: State, ev: Event)
    requires Apply(s, ev).Ok? && ev.op.Write? && SoundNodes(s.nodes) && SaneOp(ev.op)
    ensures var r, p := Apply(s, ev).value, ev.op.path;
            && r.nodes.Keys == s.nodes.Keys + {p} && (forall q :: q in s.nodes && q != p ==> r.nodes[q] == s.nodes[q])
            && r.whiteouts == s.whiteouts && r.redirects == s.redirects
            && (r.overrides == if p !in s.nodes && ev.op.sparse then s.overrides - {p} else s.overrides)
    ensures var op, m := ev.op, Apply(s, ev).value.nodes[ev.op.path];
            var end := op.offset + op.length;
            exists n :: WriteStarts(n, s, op)
              && m.kind == n.kind && m.attrs == n.attrs && m.target == n.target
              && m.fallthrough == n.fallthrough && m.lowerRel == n.lowerRel
              && m.size == (if op.eof then end else if n.fallthrough || end <= n.size then n.size else end)
              && forall i :: At(m.extents, i) ==
                   if op.eof && end <= i then None
                   else if op.offset <= i < end then Some(Cell(op.blob, op.blobOffset + i - op.offset))
                   else At(n.extents, i)
  {
    hide Canonical, At, Apply, WriteTarget, Insert, Clip, WriteStarts, SoundNodes;
    OpApplied(s, ev);
    WriteTargetStarts(s, ev.op);
    WriteTargetTidy(s, ev);
    WrittenExtents(WriteTarget(s, ev.op), ev.op);
  }

  lemma WriteTargetStarts(s: State, op: Op)
    requires op.Write?
    ensures WriteStarts(WriteTarget(s, op), s, op)
  {
  }

  lemma WriteTargetTidy(s: State, ev: Event)
    requires Apply(s, ev).Ok? && ev.op.Write? && SoundNodes(s.nodes)
    ensures Tidy(WriteTarget(s, ev.op).extents)
  {
    hide Canonical, WriteInto, Apply;
    OpApplied(s, ev);
  }

  lemma WrittenExtents(n: Node, op: Op)
    requires op.Write? && SaneOp(op) && Tidy(n.extents)
    ensures var end := op.offset + op.length;
            forall i :: At(WriteInto(n, op).extents, i) ==
              if op.eof && end <= i then None
              else if op.offset <= i < end then Some(Cell(op.blob, op.blobOffset + i - op.offset))
              else At(n.extents, i)
  {
    var e := Extent(op.offset, op.length, op.blob, op.blobOffset);
    if op.length > 0 { InsertMeaning(n.extents, e); }
    ClipMeaning(if op.length > 0 then Insert(n.extents, e) else n.extents, op.offset + op.length);
    hide Insert, Clip, At, TidyFrom, Tight;
  }

  // ------------------------------------------------------------------- rename

  lemma RenameApplied(s: State, ev: Event)
    requires Apply(s, ev).Ok? && ev.op.Rename?
    ensures SameMapsAs(Apply(s, ev).value, DoRename(s, ev.op.from, ev.op.to, ev.op.fromLower))
    ensures Canonical(ev.op.from) && Canonical(ev.op.to) && !Below(ev.op.to, ev.op.from)
  {
    hide Canonical, SubtreePresent, DoRename, Apply;
    OpApplied(s, ev);
  }

  lemma RenameFrame(s: State, t: State, from: Path, to: Path, fromLower: bool)
    requires SameMapsAs(t, s)
    ensures SameMapsAs(DoRename(t, from, to, fromLower), DoRename(s, from, to, fromLower))
  {
    hide AtOrBelow, Moved, MovedSet, Pruned, PrunedSet;
    assert SubtreePresent(Cleared(t, to), from) == SubtreePresent(Cleared(s, to), from);
  }

  /** A rename to the same name changes no map. */
  lemma RenamedToItself(s: State, ev: Event)
    requires Apply(s, ev).Ok? && ev.op.Rename? && ev.op.from == ev.op.to
    ensures SameMapsAs(Apply(s, ev).value, s)
  {
    hide Apply;
    RenameApplied(s, ev);
  }

  /**
   An accepted rename between incomparable names, overlay move or redirect, asked to whiteout its source
   or not: all four maps at every path.
   */
  lemma RenamedMapsAre(s: State, ev: Event, q: Path)
    requires Apply(s, ev).Ok? && ev.op.Rename? && CleanKeys(s) && Incomparable(ev.op.from, ev.op.to)
    requires Proper(q, ev.op.from, ev.op.to)
    ensures var r, from, to := Apply(s, ev).value, ev.op.from, ev.op.to;
            var p := Rebase(q, to, from);
            if AtOrBelow(q, to) then
              && Get(r.nodes, Some(q)) == Get(s.nodes, Some(p))
              && Get(r.overrides, Some(q)) == Get(s.overrides, Some(p))
              && (q in r.whiteouts <==> q != to && p in s.whiteouts)
              && Get(r.redirects, Some(q)) ==
                 if SomeAtOrBelow(s, from) then Get(s.redirects, Some(p)) else if q == to then Some(from) else None
            else if AtOrBelow(q, from) then
              && q !in r.nodes && q !in r.overrides && q !in r.redirects
              && (q in r.whiteouts <==> q == from && (ev.op.fromLower || from in s.whiteouts))
            else
              && Get(r.nodes, Some(q)) == Get(s.nodes, Some(q))
              && Get(r.overrides, Some(q)) == Get(s.overrides, Some(q))
              && Get(r.redirects, Some(q)) == Get(s.redirects, Some(q)) && (q in r.whiteouts <==> q in s.whiteouts)
  {
    SomeAtOrBelowIff(s, ev.op.from);
    SelfBelow(ev.op.to);
    if !SubtreePresent(s, ev.op.from) { RedirectNodes(s, ev.op.from, ev.op.to, q); }
    hide Apply, Canonical, DoRename, SubtreePresent, SomeAtOrBelow, CleanKeys, Rebase, AtOrBelow;
    RenameApplied(s, ev);
    MapsAfter(s, ev.op.from, ev.op.to, ev.op.fromLower, q);
  }

  /** And what every path then resolves to. */
  lemma RenamedEntriesAre(s: State, tree: Lower, ev: Event, x: Path)
    requires Apply(s, ev).Ok? && ev.op.Rename? && CleanKeys(s) && Incomparable(ev.op.from, ev.op.to)
    requires Proper(x, ev.op.from, ev.op.to) && Sourced(Get(s.nodes, Shows(ev.op.from, ev.op.to, x)))
    ensures var from, to := ev.op.from, ev.op.to;
            var node := Get(s.nodes, Shows(from, to, x));
            Resolve(Apply(s, ev).value, tree, x) ==
            EntryAt(tree, node, Get(s.overrides, Shows(from, to, x)), HiddenAfter(s, from, to, ev.op.fromLower, x),
              LocationAfter(s, from, to, x), SourceAfter(s, from, to, node))
  {
    hide Apply, Canonical, DoRename, CleanKeys, Resolve, EntryAt, HiddenAfter, LocationAfter, Shows, SourceAfter;
    RenameApplied(s, ev);
    RenamedResolve(s, tree, ev.op.from, ev.op.to, ev.op.fromLower, x);
    SameMapsSameView(DoRename(s, ev.op.from, ev.op.to, ev.op.fromLower), Apply(s, ev).value, tree, x);
  }

  /** A path renamed onto one of its ancestors: everything recorded there goes, and a redirect to the old path stays. */
  lemma RenamedOntoAncestor(s: State, ev: Event, q: Path)
    requires Apply(s, ev).Ok? && ev.op.Rename? && Below(ev.op.from, ev.op.to)
    ensures var r, from, to := Apply(s, ev).value, ev.op.from, ev.op.to;
            && Get(r.nodes, Some(q)) == (if AtOrBelow(q, to) then None else Get(s.nodes, Some(q)))
            && Get(r.overrides, Some(q)) == (if AtOrBelow(q, to) then None else Get(s.overrides, Some(q)))
            && Get(r.redirects, Some(q)) ==
               (if q == to then Some(from) else if AtOrBelow(q, to) then None else Get(s.redirects, Some(q)))
            && (q in r.whiteouts <==> if AtOrBelow(q, to) then q == from && ev.op.fromLower else q in s.whiteouts)
  {
    hide Apply, Canonical, DoRename, AtOrBelow, Below;
    RenameApplied(s, ev);
    AncestorMaps(s, ev.op.from, ev.op.to, ev.op.fromLower);
    BelowIsNot(ev.op.from, ev.op.to);
    BelowIsAtOrBelow(ev.op.from, ev.op.to);
    SelfBelow(ev.op.to);
  }

  lemma AncestorMaps(s: State, from: Path, to: Path, fromLower: bool)
    requires Below(from, to)
    ensures var r := DoRename(s, from, to, fromLower);
            && r.nodes == Pruned(s.nodes, to) && r.overrides == Pruned(s.overrides, to)
            && r.redirects == Pruned(s.redirects, to)[to := from]
            && r.whiteouts == PrunedSet(s.whiteouts, to) + if fromLower then {from} else {}
  {
    var c := Cleared(s, to);
    forall p ensures AtOrBelow(p, from) ==> AtOrBelow(p, to) {
      if AtOrBelow(p, from) { AtOrBelowTransitive(p, from, to); }
    }
    assert !SubtreePresent(c, from) && from != to && !Below(from, from);
    MovedIdle(c.overrides, from, to);
    MovedSetIdleBelow(c.whiteouts + if fromLower then {from} else {}, from, to);
    hide Moved, MovedSet, SubtreePresent, AtOrBelow, Below, Pruned, PrunedSet;
    assert c.whiteouts + {} == c.whiteouts;
  }

  /** Re-keying moves nothing when nothing lives in the source. */
  lemma MovedIdle<V>(m: map<Path, V>, from: Path, to: Path)
    requires forall p :: p in m ==> !AtOrBelow(p, from) && !AtOrBelow(p, to)
    ensures Moved(m, from, to) == m
  {
    assert forall p :: p in m ==> Rebase(p, from, to) == p && Origin(p, from, to) == p;
  }

  lemma MovedSetIdleBelow(ps: set<Path>, from: Path, to: Path)
    requires forall p :: p in ps ==> !Below(p, from)
    ensures MovedSet(ps, from, to) == ps
  {
    assert forall p :: p in ps ==> WhiteoutTarget(p, from, to) == p;
  }

  // ---------------------------------------------------------- nothing is lost

  /**
   An accepted event discards an overlay node only by removing it or by clearing a rename's destination;
   a renamed one goes along whole, a written or adjusted one keeps its kind, and every other is untouched.
   */
  lemma NodesSurvive(s: State, ev: Event, p: Path)
    requires Apply(s, ev).Ok? && CleanKeys(s) && p in s.nodes
    ensures var r, op := Apply(s, ev).value, ev.op;
            || ((op.Unlink? || op.Rmdir?) && p == op.path)
            || (op.Rename? && op.from != op.to && AtOrBelow(p, op.to))
            || (&& op.Rename? && AtOrBelow(p, op.from)
                && Get(r.nodes, Some(Rebase(p, op.from, op.to))) == Some(s.nodes[p]))
            || ((op.Write? || op.Setattr?) && p == op.path && p in r.nodes && r.nodes[p].kind == s.nodes[p].kind)
            || Get(r.nodes, Some(p)) == Some(s.nodes[p])
  {
    var op := ev.op;
    if op.Rename? {
      RenameSurvivor(s, ev, p);
    } else {
      OtherSurvivor(s, ev, p);
    }
  }

  lemma OtherSurvivor(s: State, ev: Event, p: Path)
    requires Apply(s, ev).Ok? && p in s.nodes && !ev.op.Rename?
    ensures var r, op := Apply(s, ev).value, ev.op;
            || ((op.Unlink? || op.Rmdir?) && p == op.path)
            || ((op.Write? || op.Setattr?) && p == op.path && p in r.nodes && r.nodes[p].kind == s.nodes[p].kind)
            || Get(r.nodes, Some(p)) == Some(s.nodes[p])
  {
    hide Canonical, HasChildren, Insert, Clip, Apply;
    OpApplied(s, ev);
  }

  lemma RenameSurvivor(s: State, ev: Event, p: Path)
    requires Apply(s, ev).Ok? && CleanKeys(s) && p in s.nodes && ev.op.Rename?
    ensures var r, op := Apply(s, ev).value, ev.op;
            || (op.from != op.to && AtOrBelow(p, op.to))
            || (AtOrBelow(p, op.from) && Get(r.nodes, Some(Rebase(p, op.from, op.to))) == Some(s.nodes[p]))
            || Get(r.nodes, Some(p)) == Some(s.nodes[p])
  {
    var from, to := ev.op.from, ev.op.to;
    assert Canonical(p);
    hide Apply, Canonical, CleanKeys, Rebase;
    RenameApplied(s, ev);
    if from == to {
      RenamedToItself(s, ev);
    } else if Below(from, to) {
      RenamedOntoAncestor(s, ev, p);
    } else {
      assert Incomparable(from, to);
      if AtOrBelow(p, from) {
        ShowsMoved(p, from, to);
        RenamedMapsAre(s, ev, Rebase(p, from, to));
      } else {
        CanonicalIsProper(p, from, to);
        RenamedMapsAre(s, ev, p);
      }
    }
  }
}
