/**
 What the protocol does, not only what it never does: an admissible event lands, a failed append
 fences, a checkpoint with something new stores it, a resume is always open. The object's commit and
 checkpoint are tied to the steps.
 */
module SessionProgress {
  import opened Machine
  import opened Overlay
  import opened EventMeaning
  import opened Images
  import opened EventLog
  import opened Sessions
  import opened SessionRuns
  import opened UpperObject
  import opened SessionObject

  /** A mounted object between two lock sections. */
  ghost predicate Idle(l: Ledger) {
    l.live.Some? && l.live.value.inflight.None? && l.live.value.phase.NoCheckpoint?
  }

  // ------------------------------------------------------------------- commits

  /** The admissible events of an unfenced object, and no others, are appended. */
  lemma BeginsIff(l: Ledger, ev: Event)
    ensures Enabled(l, Begin(ev)) <==>
            && l.live.Some? && l.live.value.inflight.None? && !l.live.value.leaseLost && !l.live.value.diverged
            && SameLower(l.live.value.upper, ev) && Fits(l.live.value.upper, ev.op)
  {
    hide Check, Apply, Fits;
    if l.live.Some? {
      var u := l.live.value.upper;
      AcceptedIff(u, ev.(seqNo := u.seqLast + 1));
      CheckPredictsApply(u, ev.(seqNo := u.seqLast + 1));
    }
  }

  /** An acknowledged commit: one record with the next number, applied, its offset known, nothing else changed. */
  lemma CommitLands(l: Ledger, ev: Event, off: int)
    requires Inv(l) && Enabled(l, Begin(ev)) && Tip(l) < off
    ensures var s, stamped := l.live.value, ev.(seqNo := l.live.value.upper.seqLast + 1);
            && Legal(l, [Begin(ev), End(Acked(off))]) && Apply(s.upper, stamped).Ok?
            && Run(l, [Begin(ev), End(Acked(off))]) ==
               l.(recs := l.recs + [Record(off, l.sid, stamped)],
                  live := Some(s.(upper := Apply(s.upper, stamped).value, seqNo := stamped.seqNo, lastOffset := off)))
  {
    hide Check, Apply, Ordered, Replays, ImagesOk, RetiredOk, Through, Tip;
    var s, steps := l.live.value, [Begin(ev), End(Acked(off))];
    var stamped := ev.(seqNo := s.upper.seqLast + 1);
    CheckPredictsApply(s.upper, ev);
    CheckPredictsApply(s.upper, stamped);
    TipOf(l, Do(l, Begin(ev)));
    TwoSteps(l, steps[0], steps[1]);
  }

  lemma TipOf(l: Ledger, m: Ledger)
    requires m.recs == l.recs && m.baseOff == l.baseOff
    ensures Tip(m) == Tip(l)
  {
  }

  lemma TwoSteps(l: Ledger, a: Step, b: Step)
    requires Enabled(l, a) && Honest(l, a) && Enabled(Do(l, a), b) && Honest(Do(l, a), b)
    ensures Legal(l, [a, b]) && Run(l, [a, b]) == Do(Do(l, a), b)
  {
    hide Enabled, Do, Honest;
    var m := Do(l, a);
    assert [a, b][1..] == [b] && [b][1..] == [];
    assert Legal(Do(m, b), []);
    assert Legal(m, [b]) && Run(m, [b]) == Do(m, b);
  }

  /** A failed append, whether the broker kept the record or not, leaves the overlay and fences the object. */
  lemma FailedAppendFences(l: Ledger, ev: Event, ack: Ack)
    requires Inv(l) && Enabled(l, Begin(ev)) && !ack.Acked? && (ack.Lost? || Tip(l) < ack.off)
    ensures Enabled(Do(l, Begin(ev)), End(ack))
    ensures var s, m := l.live.value, Do(Do(l, Begin(ev)), End(ack));
            && m.live.Some? && m.live.value.diverged && m.live.value.lastOffset == -1
            && m.live.value.upper == s.upper && m.live.value.savedOffset == s.savedOffset
            && m.recs == l.recs +
               (if ack.Lost? then [] else [Record(ack.off, l.sid, ev.(seqNo := s.upper.seqLast + 1))])
            && forall other :: !Enabled(m, Begin(other))
  {
    hide Check, Apply, Ordered, Replays, ImagesOk, RetiredOk, Through;
  }

  /** Losing the lease takes effect at once and changes nothing but the fence. */
  lemma LeaseLossFences(l: Ledger)
    requires l.live.Some?
    ensures Enabled(l, LoseLease) && Do(l, LoseLease) == l.(live := Some(l.live.value.(leaseLost := true)))
    ensures forall other :: !Enabled(Do(l, LoseLease), Begin(other))
  {
    hide Check;
  }

  /** A crash forgets the object and nothing else. */
  lemma CrashForgets(l: Ledger)
    requires l.live.Some?
    ensures Enabled(l, Crash) && Do(l, Crash) == l.(live := None)
  {
  }

  // --------------------------------------------------------------- checkpoints

  /** The object holds something durable that no image it knows of covers. */
  predicate HasNews(s: Session) {
    !s.diverged && 0 <= s.lastOffset && s.savedOffset < s.lastOffset
  }

  /** The capture step captures exactly when there is news, and then the state with its offset. */
  lemma CapturesIff(l: Ledger, view: View)
    requires Inv(l) && Enabled(l, Capture(view))
    ensures var s, m := l.live.value, Do(l, Capture(view));
            && m.recs == l.recs && m.images == l.images && m.retired == l.retired
            && m.pending == l.pending + (if HasNews(s) then {Image(s.lastOffset, view)} else {})
            && m.live == Some(s.(phase := if HasNews(s) then Uploading(s.lastOffset) else NoCheckpoint))
  {
    hide Check, Ordered, Replays, ImagesOk, RetiredOk, Through;
    assert l.pending + {} == l.pending;
  }

  /** A replaced object that has news captures it too. */
  lemma StaleCapturesIff(l: Ledger, who: nat, view: View)
    requires Inv(l) && Enabled(l, Stale(who, Capture(view)))
    ensures who < |l.retired|
    ensures Do(l, Stale(who, Capture(view))).pending ==
            l.pending + (if HasNews(l.retired[who]) then {Image(l.retired[who].lastOffset, view)} else {})
  {
    hide Check, Ordered, Replays, ImagesOk, LiveOk, Through;
    assert StaleOk(l, l.retired[who]);
    assert l.pending + {} == l.pending;
  }

  /** The steps of one checkpoint that nothing interleaves with. */
  function CheckpointSteps(s: Session, view: View, stored: bool): seq<Step> {
    if s.diverged then [EnterCheckpoint]
    else if s.lastOffset < 0 then [EnterCheckpoint, Look]
    else if s.lastOffset <= s.savedOffset then [EnterCheckpoint, Look, Capture(view)]
    else if stored then [EnterCheckpoint, Look, Capture(view), Land(Image(s.lastOffset, view)), Finish(true)]
    else [EnterCheckpoint, Look, Capture(view), Finish(false)]
  }

  /** What they leave: with news, the image is captured, and stored if the upload succeeded. */
  function Checkpointed(l: Ledger, view: View, stored: bool): Ledger
    requires l.live.Some?
  {
    var s := l.live.value;
    if !HasNews(s) then l
    else
      var img := Image(s.lastOffset, view);
      if stored then l.(pending := l.pending + {img}, images := l.images + {img},
                        live := Some(s.(savedOffset := s.lastOffset)))
      else l.(pending := l.pending + {img})
  }

  lemma {:induction false} ConsRun(l: Ledger, step: Step, rest: seq<Step>)
    requires Enabled(l, step) && Honest(l, step) && Legal(Do(l, step), rest)
    ensures Legal(l, [step] + rest) && Run(l, [step] + rest) == Run(Do(l, step), rest)
  {
    hide Enabled, Do, Honest;
    assert ([step] + rest)[1..] == rest;
  }

  lemma EmptyRun(l: Ledger)
    ensures Legal(l, []) && Run(l, []) == l
  {
  }

  /** From the capture on. */
  lemma CaptureRun(l: Ledger, view: View, stored: bool)
    requires Inv(l) && l.live.Some? && l.live.value.phase == Looked && l.live.value.inflight.None?
    requires IsView(view, l.live.value.upper) && HasNews(l.live.value)
    ensures var s := l.live.value;
            var img := Image(s.lastOffset, view);
            var steps := if stored then [Capture(view), Land(img), Finish(true)] else [Capture(view), Finish(false)];
            var idle := l.(live := Some(s.(phase := NoCheckpoint)));
            Legal(l, steps) && Run(l, steps) == Checkpointed(idle, view, stored)
  {
    hide Check, Ordered, Replays, ImagesOk, RetiredOk, LiveOk, Through, IsView, Legal, Run;
    var s := l.live.value;
    var img := Image(s.lastOffset, view);
    CapturesIff(l, view);
    var captured := Do(l, Capture(view));
    if stored {
      var landed := Do(captured, Land(img));
      var done := Do(landed, Finish(true));
      assert [Finish(true)] + [] == [Finish(true)];
      assert [Land(img)] + [Finish(true)] == [Land(img), Finish(true)];
      assert [Capture(view)] + [Land(img), Finish(true)] == [Capture(view), Land(img), Finish(true)];
      EmptyRun(done);
      ConsRun(landed, Finish(true), []);
      ConsRun(captured, Land(img), [Finish(true)]);
      ConsRun(l, Capture(view), [Land(img), Finish(true)]);
    } else {
      var done := Do(captured, Finish(false));
      assert [Finish(false)] + [] == [Finish(false)];
      assert [Capture(view)] + [Finish(false)] == [Capture(view), Finish(false)];
      EmptyRun(done);
      ConsRun(captured, Finish(false), []);
      ConsRun(l, Capture(view), [Finish(false)]);
    }
  }

  /** Without news a checkpoint leaves everything as it was. */
  lemma IdleCheckpoint(l: Ledger, view: View, stored: bool)
    requires Inv(l) && Idle(l) && IsView(view, l.live.value.upper) && !HasNews(l.live.value)
    ensures var steps := CheckpointSteps(l.live.value, view, stored); Legal(l, steps) && Run(l, steps) == l
  {
    hide Check, Ordered, Replays, ImagesOk, RetiredOk, Through, IsView, Legal, Run;
    var s, entered := l.live.value, Do(l, EnterCheckpoint);
    EmptyRun(l);
    if s.diverged {
      assert [EnterCheckpoint] + [] == [EnterCheckpoint];
      ConsRun(l, EnterCheckpoint, []);
    } else {
      FlagsKeep(l, EnterCheckpoint);
      var looked := Do(entered, Look);
      if s.lastOffset < 0 {
        assert [Look] + [] == [Look] && [EnterCheckpoint] + [Look] == [EnterCheckpoint, Look];
        ConsRun(entered, Look, []);
        ConsRun(l, EnterCheckpoint, [Look]);
      } else {
        FlagsKeep(entered, Look);
        CapturesIff(looked, view);
        assert l.pending + {} == l.pending;
        assert [Capture(view)] + [] == [Capture(view)] && [Look] + [Capture(view)] == [Look, Capture(view)];
        assert [EnterCheckpoint] + [Look, Capture(view)] == [EnterCheckpoint, Look, Capture(view)];
        ConsRun(looked, Capture(view), []);
        ConsRun(entered, Look, [Capture(view)]);
        ConsRun(l, EnterCheckpoint, [Look, Capture(view)]);
      }
    }
  }

  /** A whole checkpoint: exactly the news is stored, under its offset. */
  lemma CheckpointStores(l: Ledger, view: View, stored: bool)
    requires Inv(l) && Idle(l) && IsView(view, l.live.value.upper)
    ensures var steps := CheckpointSteps(l.live.value, view, stored);
            Legal(l, steps) && Run(l, steps) == Checkpointed(l, view, stored)
  {
    hide Check, Ordered, Replays, ImagesOk, RetiredOk, LiveOk, Through, IsView, Legal, Run;
    var s, entered := l.live.value, Do(l, EnterCheckpoint);
    if HasNews(s) {
      FlagsKeep(l, EnterCheckpoint);
      var looked := Do(entered, Look);
      FlagsKeep(entered, Look);
      CaptureRun(looked, view, stored);
      var img := Image(s.lastOffset, view);
      var rest := if stored then [Capture(view), Land(img), Finish(true)] else [Capture(view), Finish(false)];
      ConsRun(entered, Look, rest);
      ConsRun(l, EnterCheckpoint, [Look] + rest);
      assert [EnterCheckpoint] + ([Look] + rest) == CheckpointSteps(s, view, stored);
    } else {
      IdleCheckpoint(l, view, stored);
    }
  }

  /** A resume from the stored image replays no record and holds what the object held. */
  lemma CheckpointSparesReplay(l: Ledger, view: View)
    requires Inv(l) && Idle(l) && IsView(view, l.live.value.upper) && HasNews(l.live.value)
    ensures var s, m := l.live.value, Checkpointed(l, view, true);
            var img := Image(s.lastOffset, view);
            && Inv(m) && Enabled(m.(live := None), Resume(Some(img)))
            && Rebuild(m, Some(img), -1).Ok? && Rebuild(m, Some(img), -1).value.upper == s.upper
            && Window(m.recs, Rebuild(m, Some(img), -1).value.fromOffset, Tip(m)) == []
  {
    hide Check, Through, IsView, Legal, Run, Rebuild, Enabled, Do, Honest, Inv, CheckpointSteps, Window;
    var s, m := l.live.value, Checkpointed(l, view, true);
    var img := Image(s.lastOffset, view);
    CheckpointStores(l, view, true);
    RunKeepsInv(l, CheckpointSteps(s, view, true));
    RebuildIsReplay(m, Some(img), -1);
    ResumeOpen(m.(live := None), Some(img));
    SameThrough(l, m);
    Mirrors(l);
    NothingPastTip(m, img.tag + 1);
  }

  lemma Mirrors(l: Ledger)
    requires Inv(l) && l.live.Some? && !l.live.value.diverged
    ensures l.live.value.upper == Through(l, |l.recs|) && l.live.value.lastOffset == Tip(l)
  {
    hide Check, Fold, Through, Faithful, StaleOk;
  }

  lemma NothingPastTip(l: Ledger, from: int)
    requires Inv(l) && Tip(l) < from
    ensures Window(l.recs, from, Tip(l)) == []
  {
    hide Check, Replays, ImagesOk, LiveOk, RetiredOk;
    WindowUniform(l.recs, from, Tip(l), false);
  }

  lemma ResumeOpen(l: Ledger, img: Option<Image>)
    requires l.live.None? && Choosable(l, img, -1)
    ensures Enabled(l, Resume(img))
  {
  }

  // ------------------------------------------------------------------- resumes

  /** Whatever images exist, some choice is possible for every target. */
  lemma SomeChoice(l: Ledger, to: int)
    ensures exists img :: Choosable(l, img, to)
  {
    if i :| i in l.images && (to < 0 || i.tag <= to) {
      assert Choosable(l, Some(i), to);
    } else {
      assert Choosable(l, None, to);
    }
  }

  /** A session that is not mounted, or mounted by a fenced idle object, can always be resumed. */
  lemma ResumeIsOpen(l: Ledger)
    requires l.live.None? || (l.live.value.inflight.None? && (l.live.value.leaseLost || l.live.value.diverged))
    ensures exists img :: Enabled(l, Resume(img))
  {
    SomeChoice(l, -1);
    var img :| Choosable(l, img, -1);
    assert Enabled(l, Resume(img));
  }

  // -------------------------------------------------------- object and ledger

  /** A commit on the object is its steps on the ledger the object mirrors. */
  method CommitTracked(o: MountedSession, ghost l: Ledger, ev: Event, ack: Ack)
    returns (r: CommitResult, ghost m: Ledger)
    requires o.Valid() && Inv(l) && l.live == Some(o.Mirror()) && (ack.Lost? || Tip(l) < ack.off)
    modifies o, o.upper
    ensures o.Valid() && Inv(m) && m.live == Some(o.Mirror())
    ensures r.Refused? || r.Invalid? <==> !Enabled(l, Begin(ev))
    ensures r.Refused? || r.Invalid? ==> m == l
    ensures !(r.Refused? || r.Invalid?) ==> m == Do(Do(l, Begin(ev)), End(ack))
  {
    hide Check, Apply, Ordered, Replays, ImagesOk, RetiredOk, Through;
    m := l;
    if Enabled(l, Begin(ev)) {
      CommitIsTwoSteps(l, ev, ack);
      BeginKeeps(l, ev);
      EndKeeps(Do(l, Begin(ev)), ack);
      m := Do(Do(l, Begin(ev)), End(ack));
    }
    r := o.CommitLocked(ev, ack);
  }

  /** A checkpoint on the object is its steps on the ledger the object mirrors: same image, same saved offset. */
  method CheckpointTracked(o: MountedSession, ghost l: Ledger, stored: bool)
    returns (saved: int, img: Option<Image>, ghost m: Ledger)
    requires o.Valid() && Inv(l) && l.live == Some(o.Mirror())
    modifies o
    ensures o.Valid() && Inv(m) && m.live == Some(o.Mirror()) && m.recs == l.recs
    ensures img.Some? <==> old(HasNews(o.Mirror()))
    ensures img.None? ==> m == l
    ensures img.Some? ==> m.pending == l.pending + {img.value}
    ensures img.Some? ==> m.images == l.images + (if stored then {img.value} else {})
    ensures exists view, steps ::
      steps == CheckpointSteps(l.live.value, view, stored) && Legal(l, steps) && m == Run(l, steps)
  {
    hide Check, Ordered, Replays, ImagesOk, RetiredOk, LiveOk, Through, IsView, Legal, Run, CheckpointSteps;
    var offset, view := o.Capture();
    saved, img := o.Checkpoint(stored);
    ghost var v := if img.Some? then img.value.view else view;
    CheckpointStores(l, v, stored);
    RunKeepsInv(l, CheckpointSteps(l.live.value, v, stored));
    m := Checkpointed(l, v, stored);
    assert l.images + {} == l.images;
  }
}
