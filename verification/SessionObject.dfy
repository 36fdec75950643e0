/**
 The mounted session object and its locked sections, proved against the steps of
 `Sessions`, and the reconstruction that opens one: image choice, partition read,
 and a loop of Apply calls.
 */
module SessionObject {
  import opened Machine
  import opened Overlay
  import opened Images
  import opened EventLog
  import opened Sessions
  import opened UpperObject

  const CHECKPOINT_EVERY_EVENTS := 100

  datatype CommitResult =
    | Done(needCheckpoint: bool) | Refused | Invalid(error: Error) | LogDiverged | ApplyFailed(error: Error)

  /** What one whole locked commit does to the object, given how its append turns out. */
  function CommitOutcome(s: Session, ev: Event, ack: Ack): Session
    requires s.inflight.None?
  {
    if Fenced(s) || Check(s.upper, ev).Some? then s
    else match ack
      case Acked(off) => Committed(Stamp(s, ev), off)
      case _ => Diverge(Stamp(s, ev))
  }

  /** The locked commit is the two steps around the append. */
  lemma CommitIsTwoSteps(l: Ledger, ev: Event, ack: Ack)
    requires Enabled(l, Begin(ev)) && (ack.Lost? || ack.off > Tip(l))
    ensures Enabled(Do(l, Begin(ev)), End(ack))
    ensures Do(Do(l, Begin(ev)), End(ack)).live == Some(CommitOutcome(l.live.value, ev, ack))
    ensures Do(Do(l, Begin(ev)), End(ack)).recs ==
            if ack.Lost? then l.recs else l.recs + [Record(ack.off, l.sid, ev.(seqNo := l.live.value.seqNo + 1))]
  {
    hide Check, Apply;
  }

  class MountedSession {
    const upper: Upper
    var seqNo: nat
    var lastOffset: int
    var savedOffset: int
    var diverged: bool
    var leaseLost: bool

    /** An undiverged object has stamped exactly the numbers its overlay has applied. */
    ghost predicate Valid()
      reads this, upper
    {
      upper.Valid() && (!diverged ==> seqNo == upper.seqLast)
    }

    /** The object between two lock sections. */
    ghost function Mirror(): Session
      reads this, upper
    {
      Session(upper.View(), seqNo, lastOffset, savedOffset, diverged, leaseLost, None, NoCheckpoint)
    }

    constructor (u: Upper, covered: int, fromOffset: int)
      requires u.Valid()
      ensures Valid() && upper == u
      ensures Mirror() == Session(u.View(), u.View().seqLast, covered, fromOffset - 1, false, false, None, NoCheckpoint)
    {
      upper := u;
      seqNo := u.seqLast;
      lastOffset, savedOffset := covered, fromOffset - 1;
      diverged, leaseLost := false, false;
    }

    method MarkLeaseLost()
      requires Valid()
      modifies this`leaseLost
      ensures Valid()
      ensures Mirror() == old(Mirror()).(leaseLost := true)
    {
      leaseLost := true;
    }

    /**
     Re-tests the fence, checks, stamps, appends, applies, all under the commit mutex. An event
     that became durable never fails to apply.
     */
    method CommitLocked(ev: Event, ack: Ack) returns (r: CommitResult)
      requires Valid()
      modifies this`seqNo, this`lastOffset, this`diverged, upper
      ensures Valid()
      ensures Mirror() == CommitOutcome(old(Mirror()), ev, ack)
      ensures r.Refused? <==> old(leaseLost || diverged)
      ensures r.Invalid? <==> !old(leaseLost || diverged) && Check(old(upper.View()), ev).Some?
      ensures r.LogDiverged? <==> !r.Refused? && !r.Invalid? && !ack.Acked?
      ensures !r.ApplyFailed?
      ensures r.Done? ==> lastOffset == ack.off && r.needCheckpoint == (seqNo % 100 == 0)
    {
      hide Check, Apply, CleanKeys;
      if leaseLost || diverged {
        return Refused;
      }
      var refusal := upper.Check(ev);
      if refusal.Some? {
        return Invalid(refusal.value);
      }
      seqNo := seqNo + 1;
      var stamped := ev.(seqNo := seqNo);
      if !ack.Acked? {
        diverged := true;
        lastOffset := -1;
        return LogDiverged;
      }
      lastOffset := ack.off;
      CheckPredictsApply(upper.View(), stamped);
      ApplyNumbers(upper.View(), stamped);
      var failure := upper.Apply(stamped);
      if failure.Some? {
        assert false;
      }
      return Done(seqNo % CHECKPOINT_EVERY_EVENTS == 0);
    }

    /** One lock section takes the covered offset and the serialized state together. */
    method Capture() returns (offset: int, view: View)
      ensures offset == lastOffset && IsView(view, upper.View())
    {
      offset := lastOffset;
      var s := State(upper.lowerId, upper.nodes, upper.whiteouts, upper.overrides, upper.redirects, upper.seqLast);
      view := Marshal(s);
    }

    /**
     A checkpoint that no commit interleaves with; `stored` says whether the upload succeeded.
     It uploads exactly when the object is undiverged and covers a newer offset than the last image.
     */
    method Checkpoint(stored: bool) returns (saved: int, img: Option<Image>)
      requires Valid()
      modifies this`savedOffset
      ensures img.Some? <==> !diverged && lastOffset >= 0 && lastOffset > old(savedOffset)
      ensures img.Some? ==> img.value.tag == lastOffset && IsView(img.value.view, upper.View())
      ensures savedOffset == if img.Some? && stored then lastOffset else old(savedOffset)
      ensures Valid() && Mirror() == old(Mirror()).(savedOffset := savedOffset)
    {
      img := None;
      if diverged {
        return -1, None;
      }
      if lastOffset < 0 {
        return savedOffset, None;
      }
      var offset, view := Capture();
      if offset < 0 {
        return -1, None;
      }
      if offset <= savedOffset {
        return savedOffset, None;
      }
      img := Some(Image(offset, view));
      if !stored {
        return -1, img;
      }
      savedOffset := offset;
      return offset, img;
    }
  }

  // ------------------------------------------------------------------ restore

  function Tags(images: seq<Image>): seq<Option<int>> {
    seq(|images|, i requires 0 <= i < |images| => Some(images[i].tag))
  }

  /** The newest image at or below the bound, from a listing in any order. */
  method PickImage(listing: seq<Image>, maxOffset: int) returns (img: Option<Image>)
    requires forall i :: 0 <= i < |listing| ==> 0 <= listing[i].tag
    ensures img.Some? ==> img.value in listing && (maxOffset < 0 || img.value.tag <= maxOffset)
    ensures img.None? ==> forall i :: i in listing ==> 0 <= maxOffset < i.tag
    ensures img.Some? ==> forall i :: 0 <= i < |listing| && (maxOffset < 0 || listing[i].tag <= maxOffset) ==>
      listing[i].tag <= img.value.tag
  {
    var tags := Tags(listing);
    var best := LatestStateImage(tags, maxOffset);
    if best == -1 {
      forall i | i in listing ensures 0 <= maxOffset < i.tag {
        var k :| 0 <= k < |listing| && listing[k] == i;
        assert !Usable(tags[k], maxOffset);
      }
      return None;
    }
    var i := 0;
    assert exists k :: 0 <= k < |tags| && tags[k] == Some(best);
    while listing[i].tag != best
      invariant 0 <= i < |listing|
      invariant exists k :: i <= k < |tags| && tags[k] == Some(best)
      decreases |listing| - i
    {
      i := i + 1;
    }
    forall j | 0 <= j < |listing| && (maxOffset < 0 || listing[j].tag <= maxOffset) ensures listing[j].tag <= best {
      assert Usable(tags[j], maxOffset);
    }
    return Some(listing[i]);
  }

  // ------------------------------------------------------------ reconstruction

  datatype OpenError = ReadFailed(why: ReadError) | ApplyRejected(error: Error)

  lemma {:induction false} ReplayClean(s: State, evs: seq<Event>)
    requires CleanKeys(s)
    ensures Replay(s, evs).Ok? ==> CleanKeys(Replay(s, evs).value)
    decreases evs
  {
    hide CleanKeys, Apply;
    if evs == [] || Apply(s, evs[0]).Err? {
    } else {
      CleanStep(s, evs[0]);
      ReplayClean(Apply(s, evs[0]).value, evs[1..]);
    }
  }

  lemma CleanStep(s: State, ev: Event)
    requires CleanKeys(s) && Apply(s, ev).Ok?
    ensures CleanKeys(Apply(s, ev).value)
  {
    hide CleanKeys, DoOp, CheckOp;
    ApplyKeepsClean(s, ev);
  }

  /** The replay loop: Apply each event in order, stopping at the first refusal. */
  method ReplayInto(u: Upper, evs: seq<Event>) returns (err: Option<Error>)
    requires u.Valid()
    modifies u
    ensures u.Valid()
    ensures err.None? <==> Replay(old(u.View()), evs).Ok?
    ensures err.None? ==> Replay(old(u.View()), evs) == Ok(u.View())
    ensures err.Some? ==> Replay(old(u.View()), evs) == Err(err.value)
  {
    hide Overlay.Apply, CleanKeys;
    for i := 0 to |evs|
      invariant u.Valid()
      invariant Replay(old(u.View()), evs) == Replay(u.View(), evs[i..])
    {
      assert evs[i..][0] == evs[i] && evs[i..][1..] == evs[i + 1..];
      err := u.Apply(evs[i]);
      if err.Some? {
        return;
      }
    }
    assert evs[|evs|..] == [];
    err := None;
  }

  /** The partition, read through the session's filter past or before its start, serves the ledger's records. */
  ghost predicate Serves(partition: seq<Record>, l: Ledger) {
    && Increasing(partition)
    && forall from, to {:trigger Window(l.recs, from, to)} ::
         l.baseOff < from || to < l.baseOff ==> SessionRecords(partition, l.sid, from, to) == Window(l.recs, from, to)
  }

  lemma TagsNatural(l: Ledger, listing: seq<Image>)
    requires Inv(l) && forall i :: i in listing <==> i in l.images
    ensures forall i :: 0 <= i < |listing| ==> 0 <= listing[i].tag
  {
    hide Fold, IsView, Through;
    forall i | 0 <= i < |listing| ensures 0 <= listing[i].tag {
      assert listing[i] in listing;
      assert Faithful(l, listing[i]);
    }
  }

  /** The starting state is clean, and the read starts past the session's own start or ends before it. */
  lemma StartFacts(l: Ledger, img: Option<Image>, to: int)
    requires Inv(l) && Choosable(l, img, to) && CleanKeys(l.base)
    ensures CleanKeys(if img.Some? then Restore(img.value.view) else EMPTY)
    ensures Early(l, to) || l.baseOff < if img.Some? then img.value.tag + 1 else 0
  {
    hide CleanKeys, Replay, Restore, ImagesOk, LiveOk, EventsOf, Choosable, Rebuild;
    if Early(l, to) {
      EarlyTargetIsEmpty(l, img, to);
      EmptyClean();
    } else {
      var k := ChoiceStart(l, img, to);
      FoldSplit(l, k, k);
      ReplayClean(l.base, EventsOf(l.recs[..k]));
    }
  }

  lemma EmptyClean()
    ensures CleanKeys(EMPTY)
  {
  }

  lemma {:induction false} WindowTop(recs: seq<Record>, from: int, a: int, b: int)
    requires forall i :: 0 <= i < |recs| ==> (recs[i].offset <= a <==> recs[i].offset <= b)
    ensures Window(recs, from, a) == Window(recs, from, b)
  {
    if recs == [] {
    } else {
      WindowTop(recs[..|recs| - 1], from, a, b);
    }
  }

  /** Reading up to the high-water mark or the target serves what the reconstruction replays. */
  lemma ReadMatches(partition: seq<Record>, l: Ledger, highWater: int, from: int, to: int)
    requires Serves(partition, l) && Ordered(l) && (l.baseOff < from || Early(l, to)) && Tip(l) < highWater
    ensures SessionRecords(partition, l.sid, from, ReadEnd(highWater, to)) ==
            Window(l.recs, from, if to < 0 then Tip(l) else to)
  {
    hide Window, SessionRecords;
    var end, hi := ReadEnd(highWater, to), if to < 0 then Tip(l) else to;
    var w := Window(l.recs, from, end);
    forall i | 0 <= i < |l.recs| ensures l.recs[i].offset <= end <==> l.recs[i].offset <= hi {
      assert l.recs[i].offset <= Tip(l);
    }
    WindowTop(l.recs, from, end, hi);
  }

  lemma RebuildParts(l: Ledger, img: Option<Image>, to: int, from: int, start: State, mine: seq<Record>)
    requires start == if img.Some? then Restore(img.value.view) else EMPTY
    requires from == if img.Some? then img.value.tag + 1 else 0
    requires mine == Window(l.recs, from, if to < 0 then Tip(l) else to)
    ensures Rebuild(l, img, to).Ok? <==> Replay(start, EventsOf(mine)).Ok?
    ensures Rebuild(l, img, to).Ok? ==>
      var b, tail := Rebuild(l, img, to).value, TailAfter(mine, from);
      && Replay(start, EventsOf(mine)) == Ok(b.upper)
      && b.covered == if EventsOf(mine) != [] && tail - 1 > from - 1 then tail - 1 else from - 1
  {
    hide Replay, Restore, Window;
    assert EventsOf(mine) == [] <==> mine == [];
  }

  /** Replay starts one past the newest usable image's tag, or at 0 when no image is usable. */
  ghost predicate StartsAfterNewest(listing: seq<Image>, to: int, from: int) {
    && (forall i :: i in listing && (to < 0 || i.tag <= to) ==> i.tag < from)
    && (from == 0 || exists i :: i in listing && (to < 0 || i.tag <= to) && i.tag + 1 == from)
  }

  /**
   Rebuilds the overlay from the newest usable image plus the session's later records. With nothing
   needed trimmed it succeeds exactly when the log tail can be read, and then holds the state of full
   replay through the target (the empty one for a target before the session's own start).
   */
  method Reconstruct(ghost l: Ledger, sid: SessionId, listing: seq<Image>, partition: seq<Record>, highWater: int,
                     oldest: int, count: nat, corrupt: set<int>, to: int)
    returns (r: Result<Upper, OpenError>, fromOffset: int, covered: int)
    requires Inv(l) && l.sid == sid && CleanKeys(l.base) && Serves(partition, l) && Tip(l) < highWater
    requires forall i :: i in listing <==> i in l.images
    ensures StartsAfterNewest(listing, to, fromOffset)
    ensures r.Ok? ==> fresh(r.value) && r.value.Valid()
    ensures Retained(partition, l.sid, fromOffset, oldest) ==>
      && (r.Ok? <==> Readable(partition, highWater, oldest, count, corrupt, sid, fromOffset, to))
      && (Whole(partition, highWater, count) && corrupt == {} ==> r.Ok?)
      && (r.Ok? ==> r.value.View() == StateTo(l, to))
      && (r.Ok? ==> covered == if Early(l, to) then -1 else TagAt(l, Upto(l.recs, to)))
      && (r.Err? ==> r.error.ReadFailed?)
  {
    hide Overlay.Apply, Replay, CleanKeys, Restore, IsView, Window, SessionRecords, Rebuild, Retained, EventsOf, Upto,
      Readable, Inv, StateTo, TagAt;
    TagsNatural(l, listing);
    var img := PickImage(listing, to);
    assert Choosable(l, img, to);
    RebuildIsStateTo(l, img, to);
    var start := EMPTY;
    fromOffset := 0;
    if img.Some? {
      start := UnmarshalState(img.value.view);
      fromOffset := img.value.tag + 1;
    }
    StartFacts(l, img, to);
    var u := new Upper.FromState(start);
    var got := ReadSessionTo(partition, highWater, oldest, count, corrupt, sid, fromOffset, to);
    covered := fromOffset - 1;
    if got.Err? {
      return Err(ReadFailed(got.error)), fromOffset, covered;
    }
    var (evs, tail) := got.value;
    var failure := ReplayInto(u, evs);
    if Retained(partition, l.sid, fromOffset, oldest) {
      InvOrdered(l);
      ReadMatches(partition, l, highWater, fromOffset, to);
      RebuildParts(l, img, to, fromOffset, start, SessionRecords(partition, l.sid, fromOffset, ReadEnd(highWater, to)));
    }
    if failure.Some? {
      return Err(ApplyRejected(failure.value)), fromOffset, covered;
    }
    if evs != [] && tail - 1 > covered {
      covered := tail - 1;
    }
    r := Ok(u);
  }

  lemma InvOrdered(l: Ledger)
    requires Inv(l)
    ensures Ordered(l)
  {
  }
}
