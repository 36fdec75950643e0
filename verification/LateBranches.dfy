/**
 Branches that did not finish: the SessionStart is durable, the first image was reported lost. Such a
 session reopens as an empty root, and its image may still land afterwards.
 */
module LateBranches {
  import opened Machine
  import opened Paths
  import opened Overlay
  import opened EventMeaning
  import opened Images
  import opened EventLog
  import opened Sessions

  /**
   A branch that appended its SessionStart but never stored its first image is, to a later
   reopening, a root session holding one record: it comes back empty, not as its parent.
   */
  lemma UnfinishedBranchOpensEmpty(child: SessionId, off: nat, lowerId: string)
    ensures var l := Ledger(child, [Record(off, child, Event(1, lowerId, SessionStart))], {}, {}, None, EMPTY, -1, []);
            && Inv(l) && Choosable(l, None, -1)
            && Rebuild(l, None, -1).Ok?
            && Rebuild(l, None, -1).value.upper == EMPTY.(lowerId := lowerId, seqLast := 1)
  {
    hide Apply, Replay, Rebuild, IsView, Through, Fold, Inv, Faithful;
    var start := Event(1, lowerId, SessionStart);
    var l := Ledger(child, [Record(off, child, start)], {}, {}, None, EMPTY, -1, []);
    StartedFold(l.recs[0], lowerId);
    LoneRecordInv(l);
    RebuildIsReplay(l, None, -1);
    WholeThrough(l);
  }

  lemma StartedFold(r: Record, lowerId: string)
    requires r.ev == Event(1, lowerId, SessionStart)
    ensures Fold(EMPTY, [r]) == Ok(EMPTY.(lowerId := lowerId, seqLast := 1))
  {
    hide Replay, EventsOf, Fold;
    assert Apply(EMPTY, r.ev) == Ok(EMPTY.(lowerId := lowerId, seqLast := 1));
    assert [] + [r] == [r];
    EmptyFold(EMPTY);
    FoldAppend(EMPTY, [], r);
  }

  /**
   The state a branch of a session with this lower id may capture: nothing yet, the state right after
   its SessionStart, or anything later.
   */
  predicate Begun(s: State, lowerId: string) {
    s == EMPTY || s == EMPTY.(lowerId := lowerId, seqLast := 1) || 2 <= s.seqLast
  }

  lemma {:induction false} ReplayCounts(s: State, evs: seq<Event>)
    ensures Replay(s, evs).Ok? ==> s.seqLast + |evs| <= Replay(s, evs).value.seqLast
    decreases evs
  {
    hide Apply;
    if evs == [] {
    } else {
      ApplyNumbers(s, evs[0]);
      if Apply(s, evs[0]).Ok? { ReplayCounts(Apply(s, evs[0]).value, evs[1..]); }
    }
  }

  /** Every history that opens with its SessionStart has only such states. */
  lemma BegunByStart(evs: seq<Event>, lowerId: string)
    requires Replay(EMPTY, evs).Ok? && (evs != [] ==> evs[0] == Event(1, lowerId, SessionStart))
    ensures Begun(Replay(EMPTY, evs).value, lowerId)
  {
    ReplayCounts(EMPTY, evs);
    if |evs| == 1 {
      assert evs == [evs[0]];
      ReplayOne(EMPTY, evs[0]);
    }
  }

  /** An event of the session applies alike before and after its SessionStart. */
  lemma StartIsIdle(ev: Event, lowerId: string)
    requires 2 <= ev.seqNo && ev.lowerId == lowerId
    ensures Apply(EMPTY, ev) == Apply(EMPTY.(lowerId := lowerId, seqLast := 1), ev)
  {
    var s := EMPTY.(lowerId := lowerId, seqLast := 1);
    hide DoOp, CheckOp;
    SameMaps(EMPTY, s, ev.op);
    OpFrame(Bind(EMPTY, ev), Bind(s, ev), ev.op);
    if Apply(s, ev).Ok? {
      NameAndNumber(s, ev);
      NameAndNumber(EMPTY, ev);
    }
  }

  /**
   A branch whose first image was reported lost, reopened as the root session its SessionStart makes it,
   and whose image lands after all. Where that image is chosen the session opens exactly when it has
   committed nothing since its SessionStart (and then it is the branch after all) or the image is no
   older than a start; otherwise its next record is refused as out of order.
   */
  lemma LateImageOpensIff(l: Ledger, img: Image, captured: State, lowerId: string, to: int)
    requires Inv(l) && l.baseOff == -1 && l.recs != [] && l.recs[0].ev == Event(1, lowerId, SessionStart)
    requires forall i :: 0 <= i < |l.recs| ==> l.recs[i].ev.lowerId == lowerId
    requires img.tag == l.recs[0].offset && IsView(img.view, captured) && Begun(captured, lowerId)
    requires to < 0 || img.tag <= to
    ensures var r, m := Rebuild(l, Some(img), to), Upto(l.recs, to);
            && (r.Ok? <==> m == 1 || captured.seqLast <= 1)
            && (m == 1 ==> r.Ok? && r.value.upper == captured)
            && (m > 1 && captured.seqLast <= 1 ==> r.Ok? && r.value.upper == Through(l, m))
            && (m > 1 && captured.seqLast > 1 ==> r == Err(SeqOutOfOrder))
  {
    hide Replay, EventsOf, Window, Restore, IsView, Faithful, LiveOk, RetiredOk, Through, Apply, Upto;
    var m := Upto(l.recs, to);
    RebuildWindow(l, 1, to);
    RestoreInverts(img.view, captured);
    var rest := l.recs[1..m];
    assert Rebuild(l, Some(img), to).Ok? <==> Replay(captured, EventsOf(rest)).Ok?;
    if m == 1 {
      NothingToReplay(captured, rest);
    } else {
      FirstOfRest(l, m);
      StartedThrough(l, lowerId);
      FoldSplit(l, 1, m);
      LateReplay(captured, EventsOf(rest), lowerId);
    }
  }

  lemma NothingToReplay(s: State, recs: seq<Record>)
    requires recs == []
    ensures Replay(s, EventsOf(recs)) == Ok(s)
  {
    assert EventsOf(recs) == [];
  }

  lemma FirstOfRest(l: Ledger, m: nat)
    requires Replays(l) && l.base == EMPTY && 1 < m <= |l.recs|
    ensures var evs := EventsOf(l.recs[1..m]); evs != [] && evs[0] == l.recs[1].ev && evs[0].seqNo == 2
  {
    hide Fold;
    assert l.recs[1..m][0] == l.recs[1];
  }

  lemma StartedThrough(l: Ledger, lowerId: string)
    requires l.recs != [] && l.base == EMPTY && l.recs[0].ev == Event(1, lowerId, SessionStart)
    ensures Through(l, 1) == EMPTY.(lowerId := lowerId, seqLast := 1)
  {
    hide Fold;
    assert l.recs[..1] == [l.recs[0]];
    StartedFold(l.recs[0], lowerId);
  }

  lemma LateReplay(captured: State, evs: seq<Event>, lowerId: string)
    requires Begun(captured, lowerId) && evs != [] && evs[0].seqNo == 2 && evs[0].lowerId == lowerId
    ensures captured.seqLast <= 1 ==>
      Replay(captured, evs) == Replay(EMPTY.(lowerId := lowerId, seqLast := 1), evs)
    ensures captured.seqLast > 1 ==> Replay(captured, evs) == Err(SeqOutOfOrder)
  {
    if captured.seqLast > 1 {
      assert Apply(captured, evs[0]) == Err(SeqOutOfOrder) by { hide Check, DoOp; }
    } else if captured == EMPTY {
      StartIsIdle(evs[0], lowerId);
    }
    hide Apply;
  }

  lemma LoneRecordInv(l: Ledger)
    requires |l.recs| == 1 && l.images == {} && l.pending == {} && l.live.None? && l.retired == []
    requires l.base == EMPTY && l.baseOff == -1
    requires 0 <= l.recs[0].offset && l.recs[0].key == l.sid && l.recs[0].ev.seqNo == 1
    requires Fold(EMPTY, l.recs).Ok?
    ensures Inv(l)
  {
    hide Fold, Faithful, Through;
  }

  lemma WholeThrough(l: Ledger)
    requires Fold(l.base, l.recs).Ok?
    ensures Through(l, |l.recs|) == Fold(l.base, l.recs).value
  {
    hide Fold;
    assert l.recs[..|l.recs|] == l.recs;
  }
}
