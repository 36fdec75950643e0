/**
 One session's durable records and images together with the process that has it
 mounted, as a step system. A commit is two steps around the append, taken while
 the commit mutex is held; a checkpoint is one step per lock section, with the
 upload landing at any later time; crash and resume may come between any two.
 Committers waiting for the mutex hold no state, so any number of them is
 covered by letting any event begin whenever the mutex is free.
 */
module Sessions {
  import opened Machine
  import opened Overlay
  import opened Images
  import opened EventLog

  datatype Image = Image(tag: int, view: View)

  datatype Phase = NoCheckpoint | Entered | Looked | Uploading(offset: int)

  /** The mounted object. inflight is the stamped event of the committer holding the mutex. */
  datatype Session = Session(
    upper: State, seqNo: nat, lastOffset: int, savedOffset: int,
    diverged: bool, leaseLost: bool, inflight: Option<Event>, phase: Phase)

  /**
   recs are the session's records after baseOff; base is the state they are applied
   to: empty for a root session, the parent's state at the branch point for a child,
   whose own SessionStart sits at baseOff. pending are captured images whose upload
   may still land. retired are fenced objects another mount has replaced: they append
   nothing more, but a lease-lost one may still take checkpoints.
   */
  datatype Ledger = Ledger(
    sid: SessionId, recs: seq<Record>, images: set<Image>, pending: set<Image>,
    live: Option<Session>, base: State, baseOff: int, retired: seq<Session>)

  /** Success, failure without a trace, or a record the broker kept although it reported failure. */
  datatype Ack = Acked(off: int) | Lost | Unacked(off: int)

  datatype Step =
    | Begin(ev: Event)
    | End(ack: Ack)
    | LoseLease
    | EnterCheckpoint
    | Look
    | Capture(view: View)
    | Land(img: Image)
    | Finish(ok: bool)
    | Crash
    | Resume(from: Option<Image>)
    | Stale(who: nat, act: Step)

  // -------------------------------------------------------- states and offsets

  function Fold(base: State, recs: seq<Record>): Result<State, Error> {
    Replay(base, EventsOf(recs))
  }

  /** The state after the first k records. */
  function Through(l: Ledger, k: nat): State
    requires k <= |l.recs|
  {
    match Fold(l.base, l.recs[..k])
    case Ok(s) => s
    case Err(_) => l.base
  }

  /** The newest offset the state after k records reflects. */
  function TagAt(l: Ledger, k: nat): int
    requires k <= |l.recs|
  {
    if k == 0 then l.baseOff else l.recs[k - 1].offset
  }

  function Tip(l: Ledger): int { TagAt(l, |l.recs|) }

  /** How many records lie at or below offset o. */
  function Reach(recs: seq<Record>, o: int): (k: nat)
    ensures k <= |recs|
  {
    if recs == [] then 0
    else if recs[|recs| - 1].offset <= o then |recs|
    else Reach(recs[..|recs| - 1], o)
  }

  /** How many records a reconstruction to offset o applies; all of them for a negative o. */
  function Upto(recs: seq<Record>, o: int): (k: nat)
    ensures k <= |recs|
  {
    if o < 0 then |recs| else Reach(recs, o)
  }

  // ----------------------------------------------------------- reconstruction

  datatype Rebuilt = Rebuilt(upper: State, fromOffset: int, covered: int, tail: int)

  /** An image (or nothing) plus the log tail through offset to (the whole tail when negative). */
  function Rebuild(l: Ledger, img: Option<Image>, to: int): Result<Rebuilt, Error> {
    var start := if img.Some? then Restore(img.value.view) else EMPTY;
    var from := if img.Some? then img.value.tag + 1 else 0;
    var recs := Window(l.recs, from, if to < 0 then Tip(l) else to);
    var tail := TailAfter(recs, from);
    match Replay(start, EventsOf(recs))
    case Ok(u) => Ok(Rebuilt(u, from, if recs != [] && tail - 1 > from - 1 then tail - 1 else from - 1, tail))
    case Err(e) => Err(e)
  }

  /** The image selection's possible answers for a bound: any listed image within it, or none if there is none. */
  predicate Choosable(l: Ledger, img: Option<Image>, to: int) {
    match img
    case Some(i) => i in l.images && (to < 0 || i.tag <= to)
    case None => forall i | i in l.images :: 0 <= to < i.tag
  }

  // -------------------------------------------------------------------- steps

  predicate Fenced(s: Session) { s.leaseLost || s.diverged }

  predicate Checkpoints(step: Step) {
    step.EnterCheckpoint? || step.Look? || step.Capture? || step.Finish?
  }

  /** The ledger as the retired object sees it. */
  function SeenBy(l: Ledger, who: nat): Ledger
    requires who < |l.retired|
  {
    l.(live := Some(l.retired[who]))
  }

  predicate Enabled(l: Ledger, step: Step)
    decreases step
  {
    match step
    case Begin(ev) =>
      l.live.Some? && l.live.value.inflight.None? && !Fenced(l.live.value) && Check(l.live.value.upper, ev).None?
    case End(ack) =>
      l.live.Some? && l.live.value.inflight.Some? && (ack.Lost? || ack.off > Tip(l))
    case LoseLease => l.live.Some?
    case EnterCheckpoint => l.live.Some? && l.live.value.phase.NoCheckpoint?
    case Look => l.live.Some? && l.live.value.phase.Entered? && l.live.value.inflight.None?
    case Capture(view) => l.live.Some? && l.live.value.phase.Looked? && l.live.value.inflight.None?
    case Land(img) => img in l.pending
    case Finish(ok) =>
      && l.live.Some? && l.live.value.phase.Uploading?
      && (ok ==> exists i | i in l.images :: i.tag == l.live.value.phase.offset)
    case Crash => l.live.Some?
    case Resume(img) =>
      && (l.live.Some? ==> Fenced(l.live.value) && l.live.value.inflight.None?)
      && Choosable(l, img, -1)
    case Stale(who, act) => who < |l.retired| && Checkpoints(act) && Enabled(SeenBy(l, who), act)
  }

  function Stamp(s: Session, ev: Event): Session {
    s.(seqNo := s.seqNo + 1, inflight := Some(ev.(seqNo := s.seqNo + 1)))
  }

  /** An acknowledged append: remember the offset, then apply. */
  function Committed(s: Session, off: int): Session
    requires s.inflight.Some?
  {
    var applied := match Apply(s.upper, s.inflight.value) { case Ok(u) => u case Err(_) => s.upper };
    s.(upper := applied, lastOffset := off, inflight := None)
  }

  function Diverge(s: Session): Session {
    s.(diverged := true, lastOffset := -1, inflight := None)
  }

  function DoEnd(l: Ledger, ack: Ack): Ledger
    requires l.live.Some? && l.live.value.inflight.Some?
  {
    var s := l.live.value;
    match ack
    case Acked(off) => l.(recs := l.recs + [Record(off, l.sid, s.inflight.value)], live := Some(Committed(s, off)))
    case Lost => l.(live := Some(Diverge(s)))
    case Unacked(off) => l.(recs := l.recs + [Record(off, l.sid, s.inflight.value)], live := Some(Diverge(s)))
  }

  /** Offset and state are read in one lock section; an upload starts only for a new offset. */
  function DoCapture(l: Ledger, view: View): Ledger
    requires l.live.Some?
  {
    var s := l.live.value;
    if s.lastOffset < 0 || s.lastOffset <= s.savedOffset then l.(live := Some(s.(phase := NoCheckpoint)))
    else l.(pending := l.pending + {Image(s.lastOffset, view)}, live := Some(s.(phase := Uploading(s.lastOffset))))
  }

  function Opened(r: Rebuilt): Session {
    Session(r.upper, r.upper.seqLast, r.covered, r.fromOffset - 1, false, false, None, NoCheckpoint)
  }

  function Do(l: Ledger, step: Step): Ledger
    requires Enabled(l, step)
    decreases step
  {
    match step
    case Begin(ev) => l.(live := Some(Stamp(l.live.value, ev)))
    case End(ack) => DoEnd(l, ack)
    case LoseLease => l.(live := Some(l.live.value.(leaseLost := true)))
    case EnterCheckpoint =>
      l.(live := Some(l.live.value.(phase := if l.live.value.diverged then NoCheckpoint else Entered)))
    case Look =>
      l.(live := Some(l.live.value.(phase := if l.live.value.lastOffset < 0 then NoCheckpoint else Looked)))
    case Capture(view) => DoCapture(l, view)
    case Land(img) => l.(images := l.images + {img})
    case Finish(ok) =>
      var s := l.live.value;
      l.(live := Some(s.(phase := NoCheckpoint, savedOffset := if ok then s.phase.offset else s.savedOffset)))
    case Crash => l.(live := None)
    case Resume(img) =>
      (match Rebuild(l, img, -1)
       case Ok(r) => l.(live := Some(Opened(r)), retired := l.retired + if l.live.Some? then [l.live.value] else [])
       case Err(_) => l)
    case Stale(who, act) =>
      var m := Do(SeenBy(l, who), act);
      m.(live := l.live, retired := if m.live.Some? then l.retired[who := m.live.value] else l.retired)
  }

  /** The captured view is the serialization of the state it was taken from. */
  ghost predicate Honest(l: Ledger, step: Step)
    decreases step
  {
    && (step.Capture? && l.live.Some? ==> IsView(step.view, l.live.value.upper))
    && (step.Stale? && step.who < |l.retired| ==> Honest(SeenBy(l, step.who), step.act))
  }

  // --------------------------------------------------------------- invariants

  ghost predicate Ordered(l: Ledger) {
    && -1 <= l.baseOff
    && (forall i :: 0 <= i < |l.recs| ==> l.baseOff < l.recs[i].offset && l.recs[i].key == l.sid)
    && (forall i, j :: 0 <= i < j < |l.recs| ==> l.recs[i].offset < l.recs[j].offset)
  }

  /** No durable record is refused on replay, and the records carry consecutive numbers. */
  ghost predicate Replays(l: Ledger) {
    && Fold(l.base, l.recs).Ok?
    && forall i :: 0 <= i < |l.recs| ==> l.recs[i].ev.seqNo == l.base.seqLast + 1 + i
  }

  /** The image holds exactly the state through its tag. */
  ghost predicate Faithful(l: Ledger, img: Image) {
    0 <= img.tag && exists k: nat :: k <= |l.recs| && img.tag == TagAt(l, k) && IsView(img.view, Through(l, k))
  }

  ghost predicate ImagesOk(l: Ledger) {
    && (forall i :: i in l.images ==> Faithful(l, i))
    && (forall i :: i in l.pending ==> Faithful(l, i))
    && (l.baseOff == -1 ==> l.base == EMPTY)
    && (l.baseOff >= 0 ==> exists i :: i in l.images && i.tag == l.baseOff)
  }

  /** An undiverged object mirrors the durable records; a diverged one claims no offset. */
  ghost predicate LiveOk(l: Ledger) {
    l.live.Some? ==>
      var s := l.live.value;
      && (s.diverged ==> s.lastOffset == -1 && s.inflight.None?)
      && (!s.diverged ==>
            && s.upper == Through(l, |l.recs|) && s.lastOffset == Tip(l)
            && s.seqNo == s.upper.seqLast + (if s.inflight.Some? then 1 else 0))
      && (s.inflight.Some? ==> s.inflight.value.seqNo == s.seqNo && Check(s.upper, s.inflight.value).None?)
      && (s.savedOffset >= 0 ==> exists i :: i in l.images && i.tag == s.savedOffset)
  }

  /** A retired object is fenced and, undiverged, still holds the state through the offset it claims. */
  ghost predicate StaleOk(l: Ledger, s: Session) {
    && Fenced(s) && s.inflight.None? && (s.diverged ==> s.lastOffset == -1)
    && (!s.diverged ==> exists k: nat :: k <= |l.recs| && s.upper == Through(l, k) && s.lastOffset == TagAt(l, k))
    && (s.savedOffset >= 0 ==> exists i :: i in l.images && i.tag == s.savedOffset)
  }

  ghost predicate RetiredOk(l: Ledger) {
    forall i :: 0 <= i < |l.retired| ==> StaleOk(l, l.retired[i])
  }

  ghost predicate Inv(l: Ledger) {
    Ordered(l) && Replays(l) && ImagesOk(l) && LiveOk(l) && RetiredOk(l)
  }

  // ------------------------------------------------------------- fold lemmas

  lemma FoldAppend(base: State, recs: seq<Record>, r: Record)
    ensures Fold(base, recs + [r]) == match Fold(base, recs) { case Ok(s) => Apply(s, r.ev) case Err(e) => Err(e) }
  {
    hide Apply;
    EventsAppend(recs, r);
    ReplayAppend(base, EventsOf(recs), [r.ev]);
    forall s ensures Replay(s, [r.ev]) == Apply(s, r.ev) { ReplayOne(s, r.ev); }
  }

  lemma ReplayOne(s: State, ev: Event)
    ensures Replay(s, [ev]) == Apply(s, ev)
  {
    hide Apply;
    assert [ev][1..] == [];
    match Apply(s, ev) { case Ok(t) => assert Replay(t, []) == Ok(t); case Err(_) => }
  }

  /** Stopping at any record and replaying the rest is the whole replay. */
  lemma FoldSplit(l: Ledger, k: nat, m: nat)
    requires Replays(l) && k <= m <= |l.recs|
    ensures Fold(l.base, l.recs[..m]) == Ok(Through(l, m))
    ensures Replay(Through(l, k), EventsOf(l.recs[k..m])) == Ok(Through(l, m))
  {
    hide Apply, Replay;
    FoldPrefix(l.base, l.recs, m);
    FoldPrefix(l.base, l.recs[..m], k);
    assert l.recs[..m][..k] == l.recs[..k] && l.recs[..m][k..] == l.recs[k..m];
  }

  lemma FoldPrefix(base: State, recs: seq<Record>, k: nat)
    requires Fold(base, recs).Ok? && k <= |recs|
    ensures Fold(base, recs[..k]).Ok?
    ensures Replay(Fold(base, recs[..k]).value, EventsOf(recs[k..])) == Fold(base, recs)
  {
    hide Apply, Replay;
    assert EventsOf(recs) == EventsOf(recs[..k]) + EventsOf(recs[k..]);
    ReplayAppend(base, EventsOf(recs[..k]), EventsOf(recs[k..]));
  }

  lemma ApplyNumbers(s: State, ev: Event)
    ensures Apply(s, ev).Ok? ==> Apply(s, ev).value.seqLast == ev.seqNo && s.seqLast < ev.seqNo
  {
    hide DoOp, CheckOp;
  }

  lemma {:induction false} FoldNumbers(l: Ledger, k: nat)
    requires Replays(l) && k <= |l.recs|
    ensures Through(l, k).seqLast == l.base.seqLast + k
  {
    hide Apply, Replay, EventsOf;
    FoldSplit(l, k, k);
    if k == 0 {
      assert l.recs[..0] == [];
      EmptyFold(l.base);
    } else {
      assert l.recs[..k] == l.recs[..k - 1] + [l.recs[k - 1]];
      FoldSplit(l, k - 1, k);
      FoldAppend(l.base, l.recs[..k - 1], l.recs[k - 1]);
      ApplyNumbers(Through(l, k - 1), l.recs[k - 1].ev);
    }
  }

  lemma EmptyFold(base: State)
    ensures Fold(base, []) == Ok(base)
  {
    assert EventsOf([]) == [];
  }

  // ------------------------------------------------------------------ windows

  lemma {:induction false} ReachMeaning(recs: seq<Record>, o: int)
    requires forall i, j :: 0 <= i < j < |recs| ==> recs[i].offset < recs[j].offset
    ensures forall i :: 0 <= i < |recs| ==> (recs[i].offset <= o <==> i < Reach(recs, o))
  {
    if recs == [] || recs[|recs| - 1].offset <= o {
    } else {
      ReachMeaning(recs[..|recs| - 1], o);
    }
  }

  lemma {:induction false} WindowConcat(a: seq<Record>, b: seq<Record>, from: int, to: int)
    ensures Window(a + b, from, to) == Window(a, from, to) + Window(b, from, to)
  {
    if b == [] {
      assert a + b == a;
    } else {
      var n := |b| - 1;
      assert a + b == (a + b[..n]) + [b[n]] && b == b[..n] + [b[n]];
      WindowAppend(a + b[..n], b[n], from, to);
      WindowAppend(b[..n], b[n], from, to);
      WindowConcat(a, b[..n], from, to);
    }
  }

  lemma {:induction false} WindowUniform(rs: seq<Record>, from: int, to: int, inside: bool)
    requires forall i :: 0 <= i < |rs| ==> (from <= rs[i].offset <= to) == inside
    ensures Window(rs, from, to) == if inside then rs else []
  {
    if rs == [] {
    } else {
      var n := |rs| - 1;
      assert rs == rs[..n] + [rs[n]];
      WindowUniform(rs[..n], from, to, inside);
    }
  }

  lemma WindowIsSlice(recs: seq<Record>, k: nat, m: nat, from: int, to: int)
    requires k <= m <= |recs|
    requires forall i :: 0 <= i < k ==> recs[i].offset < from
    requires forall i :: k <= i < m ==> from <= recs[i].offset <= to
    requires forall i :: m <= i < |recs| ==> to < recs[i].offset
    ensures Window(recs, from, to) == recs[k..m]
  {
    hide Window;
    WindowUniform(recs[..k], from, to, false);
    WindowUniform(recs[k..m], from, to, true);
    WindowUniform(recs[m..], from, to, false);
    WindowConcat(recs[..k], recs[k..m], from, to);
    WindowConcat(recs[..m], recs[m..], from, to);
    assert recs[..m] == recs[..k] + recs[k..m] && recs == recs[..m] + recs[m..];
  }

  /** The tags of different prefixes differ. */
  lemma TagsIncrease(l: Ledger, j: nat, k: nat)
    requires Ordered(l) && j < k <= |l.recs|
    ensures TagAt(l, j) < TagAt(l, k)
  {
  }

  // --------------------------------------------------- reconstruction theorem

  /** The records replayed on top of the chosen image are exactly those after its tag up to the target. */
  lemma RebuildWindow(l: Ledger, k: nat, to: int)
    requires Ordered(l) && k <= |l.recs| && (to < 0 || TagAt(l, k) <= to)
    ensures k <= Upto(l.recs, to)
    ensures Window(l.recs, TagAt(l, k) + 1, if to < 0 then Tip(l) else to) == l.recs[k..Upto(l.recs, to)]
  {
    var m := Upto(l.recs, to);
    var hi := if to < 0 then Tip(l) else to;
    ReachMeaning(l.recs, to);
    if k > 0 { assert l.recs[k - 1].offset == TagAt(l, k); }
    forall i | 0 <= i < |l.recs|
      ensures i < k ==> l.recs[i].offset < TagAt(l, k) + 1
      ensures k <= i ==> TagAt(l, k) + 1 <= l.recs[i].offset
      ensures i < m ==> l.recs[i].offset <= hi
      ensures m <= i ==> hi < l.recs[i].offset
    {
    }
    WindowIsSlice(l.recs, k, m, TagAt(l, k) + 1, hi);
  }

  lemma FaithfulAt(l: Ledger, img: Image) returns (k: nat)
    requires Faithful(l, img)
    ensures k <= |l.recs| && img.tag == TagAt(l, k) && IsView(img.view, Through(l, k)) && 0 <= img.tag
  {
    k :| k <= |l.recs| && img.tag == TagAt(l, k) && IsView(img.view, Through(l, k));
  }

  /** The prefix an image choice starts from. */
  lemma ChoiceStart(l: Ledger, img: Option<Image>, to: int) returns (k: nat)
    requires Inv(l) && Choosable(l, img, to) && (to < 0 || l.baseOff <= to)
    ensures k <= |l.recs| && (to < 0 || TagAt(l, k) <= to)
    ensures Through(l, k) == if img.Some? then Restore(img.value.view) else EMPTY
    ensures TagAt(l, k) + 1 == if img.Some? then img.value.tag + 1 else 0
  {
    hide Replay, Restore, IsView;
    if img.Some? {
      k := FaithfulAt(l, img.value);
      RestoreInverts(img.value.view, Through(l, k));
    } else {
      k := 0;
      assert l.recs[..0] == [];
      EmptyFold(l.base);
    }
  }

  /**
   Whatever usable image is chosen, reconstruction never meets a refused record and yields
   exactly the state of full replay through the target; `covered` is the newest offset it reflects.
   */
  lemma RebuildIsReplay(l: Ledger, img: Option<Image>, to: int)
    requires Inv(l) && Choosable(l, img, to) && (to < 0 || l.baseOff <= to)
    ensures var r := Rebuild(l, img, to);
            && r.Ok? && r.value.upper == Through(l, Upto(l.recs, to))
            && r.value.covered == TagAt(l, Upto(l.recs, to))
            && r.value.fromOffset == (if img.Some? then img.value.tag + 1 else 0)
            && r.value.tail == r.value.covered + 1
  {
    hide Replays, Ordered, ImagesOk, LiveOk, Choosable, Through, TagAt, Restore, Rebuild;
    var k := ChoiceStart(l, img, to);
    RebuildFrom(l, img, to, k);
  }

  lemma RebuildFrom(l: Ledger, img: Option<Image>, to: int, k: nat)
    requires Ordered(l) && Replays(l) && k <= |l.recs| && (to < 0 || TagAt(l, k) <= to)
    requires Through(l, k) == if img.Some? then Restore(img.value.view) else EMPTY
    requires TagAt(l, k) + 1 == if img.Some? then img.value.tag + 1 else 0
    ensures var r := Rebuild(l, img, to);
            && r.Ok? && r.value.upper == Through(l, Upto(l.recs, to))
            && r.value.covered == TagAt(l, Upto(l.recs, to))
            && r.value.fromOffset == (if img.Some? then img.value.tag + 1 else 0)
            && r.value.tail == r.value.covered + 1
  {
    hide Replay, EventsOf, Ordered, Replays, Through, Window, Restore, Upto;
    var m := Upto(l.recs, to);
    RebuildWindow(l, k, to);
    FoldSplit(l, k, m);
    if k < m {
      assert l.recs[k..m][m - k - 1] == l.recs[m - 1];
      TagsIncrease(l, k, m);
    }
  }

  /** Two images a run has written with one tag are the same image. */
  lemma SameTagSameImage(l: Ledger, a: Image, b: Image)
    requires Inv(l) && a in l.images + l.pending && b in l.images + l.pending && a.tag == b.tag
    ensures a == b
  {
    hide IsView, Through;
    assert Faithful(l, a) && Faithful(l, b);
    var j := FaithfulAt(l, a);
    var k := FaithfulAt(l, b);
    if j < k { TagsIncrease(l, j, k); }
    if k < j { TagsIncrease(l, k, j); }
    ViewUnique(a.view, b.view, Through(l, k));
  }

  /** The target lies before the session's own start, where there is nothing of it. */
  predicate Early(l: Ledger, to: int) {
    0 <= to < l.baseOff
  }

  /** What a reconstruction to offset `to` holds. */
  ghost function StateTo(l: Ledger, to: int): State {
    if Early(l, to) then EMPTY else Through(l, Upto(l.recs, to))
  }

  lemma ImageSinceStart(l: Ledger, img: Image)
    requires Ordered(l) && ImagesOk(l) && img in l.images
    ensures l.baseOff <= img.tag
  {
    hide IsView, Through;
    assert Faithful(l, img);
    var k := FaithfulAt(l, img);
    if k > 0 { TagsIncrease(l, 0, k); }
  }

  /** Before a child's own start there is no image to choose and no record to replay: the result is empty. */
  lemma EarlyTargetIsEmpty(l: Ledger, img: Option<Image>, to: int)
    requires Inv(l) && Choosable(l, img, to) && Early(l, to)
    ensures img.None? && Rebuild(l, img, to) == Ok(Rebuilt(EMPTY, 0, -1, 0))
  {
    hide IsView, Replays, LiveOk, Through, Restore;
    forall i | i in l.images ensures l.baseOff <= i.tag { ImageSinceStart(l, i); }
    WindowUniform(l.recs, 0, to, false);
  }

  /** Reconstruction is full replay exactly for targets at or after the session's own start (or over an empty base). */
  lemma RebuildIsReplayIff(l: Ledger, img: Option<Image>, to: int)
    requires Inv(l) && Choosable(l, img, to)
    ensures Rebuild(l, img, to).Ok?
    ensures Rebuild(l, img, to).value.upper == Through(l, Upto(l.recs, to)) <==>
            !Early(l, to) || l.base == EMPTY
  {
    hide Rebuild, Choosable, IsView, Replay, Inv;
    if Early(l, to) {
      EarlyTargetIsEmpty(l, img, to);
      assert Through(l, Upto(l.recs, to)) == l.base by { BeforeAll(l, to); }
    } else {
      RebuildIsReplay(l, img, to);
    }
  }

  lemma BeforeAll(l: Ledger, to: int)
    requires Inv(l) && Early(l, to)
    ensures Through(l, Upto(l.recs, to)) == l.base
  {
    hide Replay, ImagesOk, LiveOk, Replays;
    ReachMeaning(l.recs, to);
    assert l.recs != [] ==> to < l.recs[0].offset;
    assert l.recs[..0] == [];
    EmptyFold(l.base);
  }

  /** Every reconstruction succeeds, whatever image is chosen and whatever target is asked for. */
  lemma RebuildIsStateTo(l: Ledger, img: Option<Image>, to: int)
    requires Inv(l) && Choosable(l, img, to)
    ensures Rebuild(l, img, to).Ok? && Rebuild(l, img, to).value.upper == StateTo(l, to)
    ensures Rebuild(l, img, to).value.covered == if Early(l, to) then -1 else TagAt(l, Upto(l.recs, to))
  {
    hide Inv, Rebuild, Choosable, Through, TagAt, Upto;
    if Early(l, to) {
      EarlyTargetIsEmpty(l, img, to);
    } else {
      RebuildIsReplay(l, img, to);
    }
  }
}
