/** What every step of a session keeps, and what therefore holds over whole runs. */
module SessionRuns {
  import opened Machine
  import opened Overlay
  import opened Images
  import opened EventLog
  import opened Sessions

  // ------------------------------------------------------------ appended record

  ghost predicate SameDurable(l: Ledger, m: Ledger) {
    m.sid == l.sid && m.recs == l.recs && m.base == l.base && m.baseOff == l.baseOff
  }

  lemma SameThrough(l: Ledger, m: Ledger)
    requires SameDurable(l, m)
    ensures forall k: nat :: k <= |l.recs| ==> Through(m, k) == Through(l, k) && TagAt(m, k) == TagAt(l, k)
    ensures Ordered(l) ==> Ordered(m)
    ensures Replays(l) ==> Replays(m)
  {
    hide Fold;
  }

  lemma StillFaithful(l: Ledger, m: Ledger, img: Image)
    requires SameDurable(l, m) && Faithful(l, img)
    ensures Faithful(m, img)
  {
    hide Through, IsView;
    SameThrough(l, m);
    var k := FaithfulAt(l, img);
    assert IsView(img.view, Through(m, k));
  }

  lemma GrownPrefix(l: Ledger, m: Ledger, r: Record, k: nat)
    requires m.base == l.base && m.baseOff == l.baseOff && m.recs == l.recs + [r] && k <= |l.recs|
    ensures Through(m, k) == Through(l, k) && TagAt(m, k) == TagAt(l, k)
  {
    assert m.recs[..k] == l.recs[..k];
  }

  lemma FaithfulGrows(l: Ledger, m: Ledger, r: Record, img: Image)
    requires m.base == l.base && m.baseOff == l.baseOff && m.recs == l.recs + [r] && Faithful(l, img)
    ensures Faithful(m, img)
  {
    hide Through, IsView, TagAt;
    var k := FaithfulAt(l, img);
    GrownPrefix(l, m, r, k);
    assert img.tag == TagAt(m, k) && IsView(img.view, Through(m, k));
  }

  lemma ImagesGrow(l: Ledger, m: Ledger, r: Record)
    requires m.base == l.base && m.baseOff == l.baseOff && m.recs == l.recs + [r]
    requires m.images == l.images && m.pending == l.pending && ImagesOk(l)
    ensures ImagesOk(m)
  {
    hide Faithful;
    forall i | i in l.images || i in l.pending ensures Faithful(m, i) { FaithfulGrows(l, m, r, i); }
  }

  lemma ImagesKept(l: Ledger, m: Ledger)
    requires SameDurable(l, m) && ImagesOk(l) && m.images == l.images && m.pending == l.pending
    ensures ImagesOk(m)
  {
    hide Faithful;
    forall i | i in l.images || i in l.pending ensures Faithful(m, i) { StillFaithful(l, m, i); }
  }

  lemma StaleKept(l: Ledger, m: Ledger, s: Session)
    requires SameDurable(l, m) && l.images <= m.images && StaleOk(l, s)
    ensures StaleOk(m, s)
  {
    hide Through, TagAt;
    SameThrough(l, m);
    if !s.diverged {
      var k: nat :| k <= |l.recs| && s.upper == Through(l, k) && s.lastOffset == TagAt(l, k);
      assert s.upper == Through(m, k) && s.lastOffset == TagAt(m, k);
    }
  }

  lemma RetiredKept(l: Ledger, m: Ledger)
    requires SameDurable(l, m) && l.images <= m.images && m.retired == l.retired && RetiredOk(l)
    ensures RetiredOk(m)
  {
    hide StaleOk;
    forall i | 0 <= i < |m.retired| ensures StaleOk(m, m.retired[i]) { StaleKept(l, m, m.retired[i]); }
  }

  lemma StaleGrows(l: Ledger, m: Ledger, r: Record, s: Session)
    requires m.base == l.base && m.baseOff == l.baseOff && m.recs == l.recs + [r] && m.images == l.images
    requires StaleOk(l, s)
    ensures StaleOk(m, s)
  {
    hide Through, TagAt;
    if !s.diverged {
      var k: nat :| k <= |l.recs| && s.upper == Through(l, k) && s.lastOffset == TagAt(l, k);
      GrownPrefix(l, m, r, k);
      assert s.upper == Through(m, k) && s.lastOffset == TagAt(m, k);
    }
  }

  lemma RetiredGrow(l: Ledger, m: Ledger, r: Record)
    requires m.base == l.base && m.baseOff == l.baseOff && m.recs == l.recs + [r]
    requires m.images == l.images && m.retired == l.retired && RetiredOk(l)
    ensures RetiredOk(m)
  {
    hide StaleOk;
    forall i | 0 <= i < |m.retired| ensures StaleOk(m, m.retired[i]) { StaleGrows(l, m, r, m.retired[i]); }
  }

  /** Appending the event the holder of the mutex had checked and stamped. */
  lemma AppendKeeps(l: Ledger, m: Ledger, r: Record, s: Session)
    requires Inv(l) && l.live == Some(s) && s.inflight == Some(r.ev) && r.key == l.sid && r.offset > Tip(l)
    requires m.sid == l.sid && m.base == l.base && m.baseOff == l.baseOff && m.recs == l.recs + [r]
    ensures Ordered(m) && Replays(m)
    ensures Apply(s.upper, r.ev) == Ok(Through(m, |m.recs|)) && Tip(m) == r.offset
    ensures Through(m, |m.recs|).seqLast == r.ev.seqNo
  {
    hide Apply, Check, Fold, ImagesOk;
    var n := |l.recs|;
    assert l.recs[..n] == l.recs && m.recs[..n + 1] == m.recs;
    FoldSplit(l, n, n);
    FoldNumbers(l, n);
    CheckPredictsApply(s.upper, r.ev);
    ApplyNumbers(s.upper, r.ev);
    FoldAppend(l.base, l.recs, r);
  }

  /** The "apply after commit" failure is unreachable. */
  lemma CommittedEventApplies(l: Ledger)
    requires Inv(l) && l.live.Some? && l.live.value.inflight.Some?
    ensures Apply(l.live.value.upper, l.live.value.inflight.value).Ok?
  {
    hide Apply, Check, Through, ImagesOk, Replays;
    CheckPredictsApply(l.live.value.upper, l.live.value.inflight.value);
  }

  // --------------------------------------------------------------- step lemmas

  lemma BeginKeeps(l: Ledger, ev: Event)
    requires Inv(l) && Enabled(l, Begin(ev))
    ensures Inv(Do(l, Begin(ev)))
  {
    hide Check, Fold, Replays, Ordered, ImagesOk, Through, RetiredOk;
    var m := Do(l, Begin(ev));
    SameThrough(l, m);
    RetiredKept(l, m);
    ImagesKept(l, m);
    CheckPredictsApply(l.live.value.upper, ev);
  }

  lemma EndKeeps(l: Ledger, ack: Ack)
    requires Inv(l) && Enabled(l, End(ack))
    ensures Inv(Do(l, End(ack)))
  {
    hide Check, Apply, Fold, Replays, Ordered, ImagesOk, Through, RetiredOk;
    var m := Do(l, End(ack));
    var s := l.live.value;
    if ack.Lost? {
      SameThrough(l, m);
      ImagesKept(l, m);
      RetiredKept(l, m);
    } else {
      var r := Record(ack.off, l.sid, s.inflight.value);
      AppendKeeps(l, m, r, s);
      ImagesGrow(l, m, r);
      RetiredGrow(l, m, r);
    }
  }

  lemma CaptureKeeps(l: Ledger, view: View)
    requires Inv(l) && Enabled(l, Capture(view)) && IsView(view, l.live.value.upper)
    ensures Inv(Do(l, Capture(view)))
    ensures l.live.value.diverged ==> Do(l, Capture(view)).pending == l.pending
  {
    hide Check, Fold, Replays, Ordered, Through, IsView, Faithful, RetiredOk;
    var m := Do(l, Capture(view));
    var s := l.live.value;
    SameThrough(l, m);
    RetiredKept(l, m);
    forall i | i in l.images || i in l.pending ensures Faithful(m, i) { StillFaithful(l, m, i); }
    if s.lastOffset >= 0 && s.lastOffset > s.savedOffset {
      NewlyFaithful(m, Image(s.lastOffset, view), |m.recs|);
    }
  }

  lemma NewlyFaithful(l: Ledger, img: Image, k: nat)
    requires k <= |l.recs| && 0 <= img.tag == TagAt(l, k) && IsView(img.view, Through(l, k))
    ensures Faithful(l, img)
  {
  }

  lemma LandKeeps(l: Ledger, img: Image)
    requires Inv(l) && Enabled(l, Land(img))
    ensures Inv(Do(l, Land(img)))
  {
    hide Check, Fold, Replays, Ordered, Through, IsView, Faithful, RetiredOk;
    var m := Do(l, Land(img));
    SameThrough(l, m);
    RetiredKept(l, m);
    forall i | i in l.images || i in l.pending ensures Faithful(m, i) { StillFaithful(l, m, i); }
  }

  lemma FlagsKeep(l: Ledger, step: Step)
    requires Inv(l) && Enabled(l, step)
    requires step.LoseLease? || step.EnterCheckpoint? || step.Look? || step.Finish? || step.Crash?
    ensures Inv(Do(l, step))
  {
    hide Check, Fold, Replays, Ordered, Through, ImagesOk, RetiredOk;
    var m := Do(l, step);
    SameThrough(l, m);
    ImagesKept(l, m);
    RetiredKept(l, m);
  }

  /** What a resume makes of the ledger. */
  lemma ResumeIs(l: Ledger, img: Option<Image>)
    requires Inv(l) && Enabled(l, Resume(img))
    ensures var s := Through(l, |l.recs|);
            var mounted := Session(s, s.seqLast, Tip(l), if img.Some? then img.value.tag else -1,
                                  false, false, None, NoCheckpoint);
            Do(l, Resume(img)) ==
            l.(live := Some(mounted), retired := l.retired + if l.live.Some? then [l.live.value] else [])
  {
    hide Inv, Check, Fold, Through, Rebuild;
    RebuildIsReplay(l, img, -1);
    assert Upto(l.recs, -1) == |l.recs|;
  }

  lemma RetiredAfterResume(l: Ledger, m: Ledger)
    requires SameDurable(l, m) && m.images == l.images && RetiredOk(l) && LiveOk(l)
    requires l.live.Some? ==> Fenced(l.live.value) && l.live.value.inflight.None?
    requires m.retired == l.retired + if l.live.Some? then [l.live.value] else []
    ensures RetiredOk(m)
  {
    hide Check, Fold, Through, StaleOk;
    forall i | 0 <= i < |m.retired| ensures StaleOk(m, m.retired[i]) {
      if i == |l.retired| { JustRetired(l); }
      StaleKept(l, m, m.retired[i]);
    }
  }

  lemma OpenedLiveOk(l: Ledger, m: Ledger, img: Option<Image>, mounted: Session)
    requires SameDurable(l, m) && m.images == l.images && m.live == Some(mounted) && Choosable(l, img, -1)
    requires mounted == Session(Through(l, |l.recs|), Through(l, |l.recs|).seqLast, Tip(l),
                               if img.Some? then img.value.tag else -1, false, false, None, NoCheckpoint)
    ensures LiveOk(m)
  {
    hide Check, Fold, Through;
    SameThrough(l, m);
  }

  lemma ResumeKeeps(l: Ledger, img: Option<Image>)
    requires Inv(l) && Enabled(l, Resume(img))
    ensures Inv(Do(l, Resume(img)))
    ensures Do(l, Resume(img)).live.Some?
    ensures var m, s := Do(l, Resume(img)), Through(l, |l.recs|);
            && m.live == Some(Session(s, s.seqLast, Tip(l), if img.Some? then img.value.tag else -1,
                              false, false, None, NoCheckpoint))
            && m.retired == l.retired + (if l.live.Some? then [l.live.value] else [])
            && m.recs == l.recs && m.images == l.images && m.pending == l.pending
  {
    hide Check, Fold, Replays, Ordered, Through, Rebuild, ImagesOk, LiveOk, RetiredOk, Do, Choosable;
    ResumeIs(l, img);
    var m := Do(l, Resume(img));
    SameThrough(l, m);
    ImagesKept(l, m);
    RetiredAfterResume(l, m);
    OpenedLiveOk(l, m, img, m.live.value);
  }

  lemma JustRetired(l: Ledger)
    requires LiveOk(l) && l.live.Some? && Fenced(l.live.value) && l.live.value.inflight.None?
    ensures StaleOk(l, l.live.value)
  {
    hide Through;
  }

  /** What a retired object's checkpoint step leaves alone. */
  lemma StaleFrame(l: Ledger, who: nat, act: Step)
    requires Enabled(l, Stale(who, act))
    ensures who < |l.retired| && Checkpoints(act)
    ensures var m := Do(l, Stale(who, act));
            && SameDurable(l, m) && m.live == l.live && m.images == l.images && l.pending <= m.pending
            && |m.retired| == |l.retired|
            && (forall i :: 0 <= i < |l.retired| && i != who ==> m.retired[i] == l.retired[i])
            && m.retired[who].(phase := l.retired[who].phase, savedOffset := l.retired[who].savedOffset)
               == l.retired[who]
            && (m.retired[who].savedOffset == l.retired[who].savedOffset
                || exists i :: i in l.images && i.tag == m.retired[who].savedOffset)
            && forall i :: i in m.pending && i !in l.pending ==>
                 act.Capture? && i == Image(l.retired[who].lastOffset, act.view) && l.retired[who].lastOffset >= 0
  {
    hide Check, Rebuild, Apply, IsView;
    assert Enabled(SeenBy(l, who), act);
    match act {
      case EnterCheckpoint =>
      case Look =>
      case Capture(view) =>
      case Finish(ok) =>
      case _ =>
    }
  }

  /** A replaced lease-lost object that checkpoints late still tags exactly the state it holds. */
  lemma StaleKeeps(l: Ledger, who: nat, act: Step)
    requires Inv(l) && Enabled(l, Stale(who, act)) && Honest(l, Stale(who, act))
    ensures Inv(Do(l, Stale(who, act)))
  {
    hide Check, Fold, Replays, Ordered, Through, IsView, Faithful, Enabled, Do, StaleOk;
    StaleFrame(l, who, act);
    var m, s := Do(l, Stale(who, act)), l.retired[who];
    SameThrough(l, m);
    assert StaleOk(l, s);
    forall i | i in m.images || i in m.pending ensures Faithful(m, i) {
      if i in l.images || i in l.pending {
        StillFaithful(l, m, i);
      } else {
        StaleCapture(l, s, i);
        StillFaithful(l, m, i);
      }
    }
    forall i | 0 <= i < |m.retired| ensures StaleOk(m, m.retired[i]) {
      StaleKept(l, m, l.retired[i]);
      if i == who { StaleRephased(m, s, m.retired[i]); }
    }
  }

  lemma StaleCapture(l: Ledger, s: Session, img: Image)
    requires StaleOk(l, s) && 0 <= img.tag == s.lastOffset && IsView(img.view, s.upper)
    ensures Faithful(l, img)
  {
    hide Through, IsView, TagAt;
    var k: nat :| k <= |l.recs| && s.upper == Through(l, k) && s.lastOffset == TagAt(l, k);
    NewlyFaithful(l, img, k);
  }

  lemma StaleRephased(l: Ledger, s: Session, t: Session)
    requires StaleOk(l, s) && t.(phase := s.phase, savedOffset := s.savedOffset) == s
    requires t.savedOffset == s.savedOffset || exists i :: i in l.images && i.tag == t.savedOffset
    ensures StaleOk(l, t)
  {
    hide Through, TagAt;
  }

  /** Every step of commit, checkpoint, crash and resume keeps the invariant. */
  lemma StepKeepsInv(l: Ledger, step: Step)
    requires Inv(l) && Enabled(l, step) && Honest(l, step)
    ensures Inv(Do(l, step))
  {
    hide Inv;
    match step
    case Begin(ev) => BeginKeeps(l, ev);
    case End(ack) => EndKeeps(l, ack);
    case Capture(view) => CaptureKeeps(l, view);
    case Land(img) => LandKeeps(l, img);
    case Resume(img) => ResumeKeeps(l, img);
    case Stale(who, act) => StaleKeeps(l, who, act);
    case _ => FlagsKeep(l, step);
  }

  // --------------------------------------------------------------------- runs

  ghost predicate Legal(l: Ledger, steps: seq<Step>)
    decreases steps
  {
    steps == [] || (Enabled(l, steps[0]) && Honest(l, steps[0]) && Legal(Do(l, steps[0]), steps[1..]))
  }

  ghost function Run(l: Ledger, steps: seq<Step>): Ledger
    requires Legal(l, steps)
    decreases steps
  {
    if steps == [] then l else Run(Do(l, steps[0]), steps[1..])
  }

  lemma {:induction false} RunKeepsInv(l: Ledger, steps: seq<Step>)
    requires Inv(l) && Legal(l, steps)
    ensures Inv(Run(l, steps))
    decreases steps
  {
    hide Inv, Enabled, Honest, Do;
    if steps == [] {
    } else {
      StepKeepsInv(l, steps[0]);
      RunKeepsInv(Do(l, steps[0]), steps[1..]);
    }
  }

  /** The ledger of a session nothing has happened to yet. */
  function NewRoot(sid: SessionId): Ledger {
    Ledger(sid, [], {}, {}, None, EMPTY, -1, [])
  }

  lemma NewRootInv(sid: SessionId)
    ensures Inv(NewRoot(sid))
  {
    EmptyFold(EMPTY);
  }

  /**
   Over every run of a root session: an unfenced idle object equals the replay of the durable
   records and knows the newest one's offset, the records are numbered 1..n, and a commit in
   flight will apply.
   */
  lemma RootRunMirrorsLog(sid: SessionId, steps: seq<Step>)
    requires Legal(NewRoot(sid), steps)
    ensures var l := Run(NewRoot(sid), steps);
            && Inv(l)
            && Fold(EMPTY, l.recs).Ok?
            && (forall i :: 0 <= i < |l.recs| ==> l.recs[i].ev.seqNo == i + 1)
            && (l.live.Some? && !Fenced(l.live.value) ==>
                  Fold(EMPTY, l.recs) == Ok(l.live.value.upper) && l.live.value.lastOffset == Tip(l))
            && (l.live.Some? && l.live.value.inflight.Some? ==>
                  Apply(l.live.value.upper, l.live.value.inflight.value).Ok?)
  {
    hide Apply, Check, Fold, Do, Enabled, Honest;
    NewRootInv(sid);
    RunKeepsInv(NewRoot(sid), steps);
    RunKeepsBase(NewRoot(sid), steps);
    var l := Run(NewRoot(sid), steps);
    assert l.recs[..|l.recs|] == l.recs;
    if l.live.Some? && l.live.value.inflight.Some? { CommittedEventApplies(l); }
  }

  lemma StepKeepsBase(l: Ledger, step: Step)
    requires Enabled(l, step)
    ensures var m := Do(l, step); m.base == l.base && m.baseOff == l.baseOff && l.recs <= m.recs && l.images <= m.images
  {
    hide Apply, Check, Rebuild;
    if step.Stale? { StaleFrame(l, step.who, step.act); }
  }

  lemma {:induction false} RunKeepsBase(l: Ledger, steps: seq<Step>)
    requires Legal(l, steps)
    ensures Run(l, steps).base == l.base && Run(l, steps).baseOff == l.baseOff && l.recs <= Run(l, steps).recs
    ensures l.images <= Run(l, steps).images
    decreases steps
  {
    hide Do, Enabled, Honest;
    if steps == [] {
    } else {
      StepKeepsBase(l, steps[0]);
      RunKeepsBase(Do(l, steps[0]), steps[1..]);
    }
  }

  // -------------------------------------------------------------------- fence

  /** How many more records a fenced object may still land: the one whose append is under way. */
  function Quota(l: Ledger): nat {
    if l.live.Some? && l.live.value.inflight.Some? then 1 else 0
  }

  predicate Barred(l: Ledger) {
    l.live.None? || Fenced(l.live.value)
  }

  lemma BarredStep(l: Ledger, step: Step)
    requires Barred(l) && Enabled(l, step) && !step.Resume?
    ensures Barred(Do(l, step))
    ensures |Do(l, step).recs| + Quota(Do(l, step)) <= |l.recs| + Quota(l)
  {
    hide Apply, Check;
    if step.Stale? { StaleFrame(l, step.who, step.act); }
  }

  /**
   Once the lease is marked lost (or an append has failed), any number of committers land at
   most the one record whose append was already under way, and none after a failed append.
   */
  lemma {:induction false} FencedObjectLandsAtMostOne(l: Ledger, steps: seq<Step>)
    requires Barred(l) && Legal(l, steps) && forall i :: 0 <= i < |steps| ==> !steps[i].Resume?
    ensures |Run(l, steps).recs| <= |l.recs| + Quota(l)
    ensures Inv(l) && l.live.Some? && l.live.value.diverged ==> Run(l, steps).recs == l.recs
    decreases steps
  {
    hide Apply, Check, Enabled, Do, Fold, Honest, Rebuild;
    RunKeepsBase(l, steps);
    if steps == [] {
    } else {
      BarredStep(l, steps[0]);
      FencedObjectLandsAtMostOne(Do(l, steps[0]), steps[1..]);
    }
  }

  /** The tag is the offset an undiverged retired object already claims. */
  ghost predicate StaleTag(l: Ledger, tag: int) {
    exists i :: 0 <= i < |l.retired| && !l.retired[i].diverged && l.retired[i].lastOffset == tag
  }

  ghost predicate Undiverging(step: Step) {
    !step.Resume? && !step.Crash?
  }

  lemma DivergedStale(l: Ledger, who: nat, act: Step)
    requires RetiredOk(l) && Enabled(l, Stale(who, act))
    ensures var m := Do(l, Stale(who, act));
            && (forall i :: i in m.pending ==> i in l.pending || StaleTag(l, i.tag))
            && (forall tag :: StaleTag(m, tag) ==> StaleTag(l, tag))
  {
    hide Do, Enabled, Through, Fold;
    StaleFrame(l, who, act);
    var m := Do(l, Stale(who, act));
    assert StaleOk(l, l.retired[who]);
    forall tag | StaleTag(m, tag) ensures StaleTag(l, tag) {
      var i :| 0 <= i < |m.retired| && !m.retired[i].diverged && m.retired[i].lastOffset == tag;
      assert !l.retired[i].diverged && l.retired[i].lastOffset == tag;
    }
  }

  lemma DivergedOwn(l: Ledger, step: Step)
    requires LiveOk(l) && l.live.Some? && l.live.value.diverged
    requires Enabled(l, step) && Undiverging(step) && !step.Stale?
    ensures var m := Do(l, step);
            && m.live.Some? && m.live.value.diverged && m.pending == l.pending && m.images <= l.images + l.pending
            && m.retired == l.retired
  {
    hide Apply, Check, Fold, Rebuild, Through;
  }

  /** Steps of a diverged object's ledger: whatever is newly captured comes from an undiverged retired object. */
  lemma DivergedStep(l: Ledger, step: Step)
    requires Inv(l) && l.live.Some? && l.live.value.diverged
    requires Enabled(l, step) && Honest(l, step) && Undiverging(step)
    ensures var m := Do(l, step);
            && Inv(m) && m.live.Some? && m.live.value.diverged
            && l.pending <= m.pending && m.images <= l.images + l.pending
            && (forall i :: i in m.pending ==> i in l.pending || StaleTag(l, i.tag))
            && (forall tag :: StaleTag(m, tag) ==> StaleTag(l, tag))
  {
    hide Enabled, Do, Honest, Ordered, Replays, ImagesOk, LiveOk, RetiredOk;
    StepKeepsInv(l, step);
    if step.Stale? {
      StaleFrame(l, step.who, step.act);
      DivergedStale(l, step.who, step.act);
    } else {
      DivergedOwn(l, step);
    }
  }

  /**
   A diverged object captures nothing: as long as it stays mounted, every new image in the whole ledger
   carries the offset of some undiverged object it replaced, and with none there is no new image at all.
   */
  lemma {:induction false} DivergedCapturesNothing(l: Ledger, steps: seq<Step>)
    requires Inv(l) && l.live.Some? && l.live.value.diverged
    requires Legal(l, steps) && forall i :: 0 <= i < |steps| ==> Undiverging(steps[i])
    ensures forall i :: i in Run(l, steps).pending + Run(l, steps).images ==>
      i in l.pending || i in l.images || StaleTag(l, i.tag)
    ensures l.pending <= Run(l, steps).pending
    decreases steps
  {
    hide Inv, Enabled, Do, Honest, StaleTag;
    if steps == [] {
    } else {
      DivergedStep(l, steps[0]);
      DivergedCapturesNothing(Do(l, steps[0]), steps[1..]);
    }
  }
}
