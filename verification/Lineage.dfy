/**
 What a session's state means through its whole ancestry, and that the fast path
 (an image and a log tail) computes it in every reachable world, undisturbed by
 what other sessions do.
 */
module Lineage {
  import opened Machine
  import opened Overlay
  import opened Images
  import opened EventLog
  import opened Sessions
  import opened SessionRuns
  import opened Cluster
  import opened SessionObject

  ghost predicate Wellborn(w: World) {
    forall sid :: sid in w.accounts && w.accounts[sid].origin.Child? ==>
      w.accounts[sid].origin.parent in w.accounts
      && w.accounts[w.accounts[sid].origin.parent].born < w.accounts[sid].born
  }

  /** The simple path: the parent's meaning at the branch offset, then the session's own records through o. */
  ghost function Meaning(w: World, sid: SessionId, o: int): State
    requires sid in w.accounts && Wellborn(w)
    decreases w.accounts[sid].born
  {
    var a, l := w.accounts[sid], LedgerOf(w, sid);
    var start := if a.origin.Child? then Meaning(w, a.origin.parent, a.origin.at) else EMPTY;
    match Fold(start, l.recs[..Reach(l.recs, o)])
    case Ok(s) => s
    case Err(_) => start
  }

  lemma InvWellborn(w: World)
    requires WorldInv(w)
    ensures Wellborn(w)
  {
    hide Inv, BranchPoint, LedgerOf;
    forall sid | sid in w.accounts && w.accounts[sid].origin.Child?
      ensures w.accounts[sid].origin.parent in w.accounts
      ensures w.accounts[w.accounts[sid].origin.parent].born < w.accounts[sid].born
    {
      assert Descends(w, sid);
    }
  }

  lemma {:induction false} ReachIs(recs: seq<Record>, o: int, k: nat)
    requires k <= |recs| && forall i :: 0 <= i < |recs| ==> (recs[i].offset <= o <==> i < k)
    ensures Reach(recs, o) == k
  {
    if recs == [] || recs[|recs| - 1].offset <= o {
    } else {
      ReachIs(recs[..|recs| - 1], o, k);
    }
  }

  lemma ReachTag(l: Ledger, k: nat)
    requires Ordered(l) && k <= |l.recs|
    ensures Reach(l.recs, TagAt(l, k)) == k
  {
    ReachIs(l.recs, TagAt(l, k), k);
  }

  /** The start of a session's own replay is the base its ledger records. */
  lemma {:induction false} MeaningIsThrough(w: World, sid: SessionId, o: int)
    requires WorldInv(w) && Wellborn(w) && sid in w.accounts
    ensures Meaning(w, sid, o) == Through(LedgerOf(w, sid), Reach(LedgerOf(w, sid).recs, o))
    decreases w.accounts[sid].born
  {
    hide Fold, Reach, Ordered, Replays, LiveOk, BranchPoint;
    var a, l := w.accounts[sid], LedgerOf(w, sid);
    assert Inv(l) && Descends(w, sid);
    if a.origin.Child? {
      var p := LedgerOf(w, a.origin.parent);
      assert Inv(p);
      MeaningIsThrough(w, a.origin.parent, a.origin.at);
      BranchState(p, a.origin.at, a.base);
    }
  }

  lemma BranchState(l: Ledger, at: int, state: State)
    requires Ordered(l) && BranchPoint(l, at, state)
    ensures Through(l, Reach(l.recs, at)) == state
  {
    hide Through;
    var k: nat :| k <= |l.recs| && at == TagAt(l, k) && state == Through(l, k);
    ReachTag(l, k);
  }

  /** The offset a reconstruction request stands for: the newest record when negative. */
  ghost function Target(w: World, sid: SessionId, to: int): int
    requires sid in w.accounts
  {
    if to < 0 then Tip(LedgerOf(w, sid)) else to
  }

  /** The target predates the session, whose starting state was not empty. */
  ghost predicate Misses(w: World, sid: SessionId, to: int)
    requires sid in w.accounts
  {
    Early(LedgerOf(w, sid), to) && w.accounts[sid].base != EMPTY
  }

  /** The state through a target is the session's meaning there, exactly unless the target misses it. */
  lemma StateToIsMeaning(w: World, sid: SessionId, to: int)
    requires WorldInv(w) && Wellborn(w) && sid in w.accounts
    ensures StateTo(LedgerOf(w, sid), to) == Meaning(w, sid, Target(w, sid, to)) <==> !Misses(w, sid, to)
  {
    hide Meaning, Through, Inv, Reach, LedgerOf;
    var l := LedgerOf(w, sid);
    assert Inv(l);
    LedgerState(w, sid);
    MeaningIsThrough(w, sid, Target(w, sid, to));
    if Early(l, to) { BeforeAll(l, to); }
    if to < 0 { TipReach(l); }
  }

  /**
   For every lineage depth, every usable image and every target: reconstruction succeeds, equals the
   simple path exactly unless the target misses the session, and is empty when the target is early.
   */
  lemma ReconstructionIsMeaning(w: World, sid: SessionId, img: Option<Image>, to: int)
    requires WorldInv(w) && Wellborn(w) && sid in w.accounts
    requires Choosable(LedgerOf(w, sid), img, to)
    ensures var r := Rebuild(LedgerOf(w, sid), img, to);
            && r.Ok?
            && (r.value.upper == Meaning(w, sid, Target(w, sid, to)) <==> !Misses(w, sid, to))
            && (Early(LedgerOf(w, sid), to) ==> r.value.upper == EMPTY)
  {
    hide Rebuild, Choosable, Meaning, Through, Inv, Reach, LedgerOf, Misses;
    assert Inv(LedgerOf(w, sid));
    RebuildIsStateTo(LedgerOf(w, sid), img, to);
    StateToIsMeaning(w, sid, to);
  }

  lemma TipReach(l: Ledger)
    requires Inv(l)
    ensures Reach(l.recs, Tip(l)) == |l.recs|
  {
    ReachTag(l, |l.recs|);
  }

  // ---------------------------------------------------------------- isolation

  lemma ReachExtends(l: Ledger, m: Ledger, o: int)
    requires Inv(l) && Inv(m) && Extends(l, m) && (m == l || o <= Tip(l))
    ensures Reach(m.recs, o) == Reach(l.recs, o)
    ensures Through(m, Reach(m.recs, o)) == Through(l, Reach(l.recs, o))
  {
    hide Replays, ImagesOk, LiveOk, Fold;
    ReachMeaning(l.recs, o);
    var k, n := Reach(l.recs, o), |l.recs|;
    forall i | 0 <= i < |m.recs| ensures m.recs[i].offset <= o <==> i < k {
      if i < n {
        assert m.recs[i] == l.recs[i];
      } else {
        assert n > 0 ==> m.recs[n - 1] == l.recs[n - 1];
      }
    }
    ReachIs(m.recs, o, k);
    assert m.recs[..k] == l.recs[..k];
  }

  /**
   No move of another session changes what this one means at any offset, and no move of its own
   changes what it meant up to its newest record: parent and child never disturb each other.
   */
  lemma MeaningIsStable(w: World, mv: Move, sid: SessionId, o: int)
    requires WorldInv(w) && Wellborn(w) && Possible(w, mv) && sid in w.accounts
    requires !(mv.Act? && mv.sid == sid) || o <= Tip(LedgerOf(w, sid))
    ensures sid in Next(w, mv).accounts && Wellborn(Next(w, mv))
    ensures Meaning(Next(w, mv), sid, o) == Meaning(w, sid, o)
  {
    hide Possible, Next, Meaning, Through, Reach, LedgerOf, Inv, Extends, Descends, Tip;
    var v := Next(w, mv);
    NextKeepsInv(w, mv);
    InvWellborn(v);
    NextExtends(w, mv, sid);
    MeaningIsThrough(w, sid, o);
    MeaningIsThrough(v, sid, o);
    ReachExtends(LedgerOf(w, sid), LedgerOf(v, sid), o);
  }

  /**
   A fork starts as its parent's meaning at the requested offset, exactly unless that offset misses
   the parent; a fork at an early offset starts empty.
   */
  lemma ForkStartsAsParent(w: World, mv: Move)
    requires WorldInv(w) && Wellborn(w) && mv.Fork? && Possible(w, mv)
    ensures mv.parent in w.accounts && mv.child in Next(w, mv).accounts && Wellborn(Next(w, mv))
    ensures Meaning(Next(w, mv), mv.child, mv.off) == Meaning(w, mv.parent, Target(w, mv.parent, mv.to)) <==>
            !Misses(w, mv.parent, mv.to)
    ensures Early(LedgerOf(w, mv.parent), mv.to) ==> Meaning(Next(w, mv), mv.child, mv.off) == EMPTY
  {
    hide Possible, Next, Meaning, Through, Reach, LedgerOf, Inv, IsView, Descends, Misses, ForkOrigin;
    var v := Next(w, mv);
    NextKeepsInv(w, mv);
    InvWellborn(v);
    ForkedAccount(w, mv);
    ForkedLedger(w, mv);
    ParentKept(w, mv);
    var c := LedgerOf(v, mv.child);
    MeaningIsThrough(v, mv.child, mv.off);
    assert Through(c, Reach(c.recs, mv.off)) == c.base by { NoRecordsYet(c); }
    assert c.base == v.accounts[mv.child].base by { LedgerState(v, mv.child); }
    StateToIsMeaning(w, mv.parent, mv.to);
  }

  lemma NoRecordsYet(l: Ledger)
    requires l.recs == []
    ensures Through(l, 0) == l.base
  {
    assert l.recs[..0] == [];
    EmptyFold(l.base);
  }

  lemma LedgerState(w: World, sid: SessionId)
    requires sid in w.accounts
    ensures LedgerOf(w, sid).base == w.accounts[sid].base
  {
  }

  /** An offset past the newest record is not yet settled: the next record at or below it changes its meaning. */
  lemma FutureOffsetDrifts(w: World, sid: SessionId, ack: Ack, o: int)
    requires WorldInv(w) && Wellborn(w) && Possible(w, Act(sid, End(ack))) && !ack.Lost?
    ensures sid in Next(w, Act(sid, End(ack))).accounts && Wellborn(Next(w, Act(sid, End(ack))))
    ensures Meaning(Next(w, Act(sid, End(ack))), sid, o) == Meaning(w, sid, o) <==> o < ack.off
  {
    hide Possible, Next, Meaning, Reach, LedgerOf, Inv, Descends, Enabled, Do, Honest, Through;
    var mv := Act(sid, End(ack));
    ActFacts(w, sid, End(ack));
    var v := Next(w, mv);
    NextKeepsInv(w, mv);
    InvWellborn(v);
    NextExtends(w, mv, sid);
    OwnStep(w, sid, End(ack));
    StepRecords(LedgerOf(w, sid), End(ack));
    MeaningIsThrough(w, sid, o);
    MeaningIsThrough(v, sid, o);
    DriftAt(LedgerOf(w, sid), LedgerOf(v, sid), ack.off, o);
  }

  lemma ActFacts(w: World, sid: SessionId, step: Step)
    requires WorldInv(w) && Possible(w, Act(sid, step))
    ensures sid in w.accounts && Inv(LedgerOf(w, sid))
    ensures Enabled(LedgerOf(w, sid), step) && Honest(LedgerOf(w, sid), step)
  {
  }

  lemma DriftAt(l: Ledger, m: Ledger, off: int, o: int)
    requires Inv(l) && Inv(m) && Extends(l, m) && |m.recs| == |l.recs| + 1 && m.recs[|l.recs|].offset == off
    ensures Through(m, Reach(m.recs, o)) == Through(l, Reach(l.recs, o)) <==> o < off
  {
    hide Fold, ImagesOk, LiveOk;
    var n := |l.recs|;
    ReachMeaning(l.recs, o);
    var j := Reach(l.recs, o);
    assert forall i :: 0 <= i < n ==> m.recs[i] == l.recs[i];
    if o < off {
      ReachIs(m.recs, o, j);
      assert m.recs[..j] == l.recs[..j];
    } else {
      ReachIs(m.recs, o, n + 1);
      FoldNumbers(l, j);
      FoldNumbers(m, n + 1);
    }
  }

  /** The parent offset a branch records as its lineage. */
  function BranchAt(r: Rebuilt, to: int): int {
    if to < 0 then Max(r.tail - 1, 0) else to
  }

  /** At branch time the recorded parent offset names the child's first state, exactly unless it misses the parent. */
  lemma RecordedOffsetNamesBase(w: World, mv: Move)
    requires WorldInv(w) && Wellborn(w) && mv.Fork? && Possible(w, mv)
    ensures mv.parent in w.accounts && Rebuild(LedgerOf(w, mv.parent), mv.img, mv.to).Ok?
    ensures var r := Rebuild(LedgerOf(w, mv.parent), mv.img, mv.to).value;
            && (Meaning(w, mv.parent, BranchAt(r, mv.to)) == r.upper <==> !Misses(w, mv.parent, mv.to))
            && BranchAt(r, mv.to) == if mv.to < 0 then Max(Tip(LedgerOf(w, mv.parent)), 0) else mv.to
  {
    hide Meaning, Rebuild, Choosable, Through, Inv, LedgerOf, IsView, Reach, Misses;
    var l := LedgerOf(w, mv.parent);
    assert Inv(l);
    ReconstructionIsMeaning(w, mv.parent, mv.img, mv.to);
    if mv.to < 0 {
      RebuildIsReplay(l, mv.img, mv.to);
      if Tip(l) < 0 {
        UntouchedReach(l);
        MeaningIsThrough(w, mv.parent, 0);
        MeaningIsThrough(w, mv.parent, Tip(l));
      }
    }
  }

  lemma UntouchedReach(l: Ledger)
    requires Inv(l) && Tip(l) < 0
    ensures Reach(l.recs, 0) == Reach(l.recs, Tip(l)) == 0
  {
    hide Replays, ImagesOk, LiveOk;
  }

  // --------------------------------------------------------------- whole runs

  ghost predicate LegalMoves(w: World, moves: seq<Move>)
    decreases moves
  {
    moves == [] || (Possible(w, moves[0]) && LegalMoves(Next(w, moves[0]), moves[1..]))
  }

  ghost function RunMoves(w: World, moves: seq<Move>): World
    requires LegalMoves(w, moves)
    decreases moves
  {
    if moves == [] then w else RunMoves(Next(w, moves[0]), moves[1..])
  }

  ghost function Genesis(part: SessionId -> nat): World {
    World([], part, map[], 0)
  }

  lemma GenesisInv(part: SessionId -> nat)
    ensures WorldInv(Genesis(part))
  {
  }

  lemma {:induction false} RunMovesKeepsInv(w: World, moves: seq<Move>)
    requires WorldInv(w) && LegalMoves(w, moves)
    ensures WorldInv(RunMoves(w, moves)) && Wellborn(RunMoves(w, moves))
    decreases moves
  {
    hide WorldInv, Possible, Next;
    if moves == [] {
      InvWellborn(w);
    } else {
      NextKeepsInv(w, moves[0]);
      RunMovesKeepsInv(Next(w, moves[0]), moves[1..]);
    }
  }

  /** In every reachable world reconstruction succeeds and equals the simple path, exactly unless its target misses. */
  lemma ReachableReconstruction(part: SessionId -> nat, moves: seq<Move>, sid: SessionId, img: Option<Image>, to: int)
    requires LegalMoves(Genesis(part), moves) && sid in RunMoves(Genesis(part), moves).accounts
    requires Choosable(LedgerOf(RunMoves(Genesis(part), moves), sid), img, to)
    ensures var w := RunMoves(Genesis(part), moves);
            var r := Rebuild(LedgerOf(w, sid), img, to);
            && Wellborn(w) && r.Ok?
            && (r.value.upper == Meaning(w, sid, Target(w, sid, to)) <==> !Misses(w, sid, to))
            && (Early(LedgerOf(w, sid), to) ==> r.value.upper == EMPTY)
  {
    hide WorldInv, LegalMoves, RunMoves, Rebuild, Choosable, Meaning, Misses;
    GenesisInv(part);
    RunMovesKeepsInv(Genesis(part), moves);
    ReconstructionIsMeaning(RunMoves(Genesis(part), moves), sid, img, to);
  }

  /**
   In every reachable world every mounted, undiverged session, root or child at any depth, holds its
   meaning through its newest record and knows that record's offset.
   */
  lemma ReachableMirror(part: SessionId -> nat, moves: seq<Move>, sid: SessionId)
    requires LegalMoves(Genesis(part), moves) && sid in RunMoves(Genesis(part), moves).accounts
    ensures var w := RunMoves(Genesis(part), moves);
            var live := w.accounts[sid].live;
            && Wellborn(w)
            && (live.Some? && !live.value.diverged ==>
                  && live.value.upper == Meaning(w, sid, Tip(LedgerOf(w, sid)))
                  && live.value.lastOffset == Tip(LedgerOf(w, sid)))
  {
    hide LegalMoves, RunMoves, Meaning, Through, Ordered, Replays, ImagesOk, RetiredOk, Descends;
    GenesisInv(part);
    RunMovesKeepsInv(Genesis(part), moves);
    var w := RunMoves(Genesis(part), moves);
    assert Inv(LedgerOf(w, sid));
    MeaningIsThrough(w, sid, Tip(LedgerOf(w, sid)));
    TipReach(LedgerOf(w, sid));
  }

  // ---------------------------------------------------- reading the partition

  /** One partition's records, in log order. */
  function Partition(log: seq<Record>, part: SessionId -> nat, p: nat): seq<Record> {
    if log == [] then []
    else Partition(log[..|log| - 1], part, p) + if part(log[|log| - 1].key) == p then [log[|log| - 1]] else []
  }

  lemma {:induction false} PartitionOwn(log: seq<Record>, part: SessionId -> nat, sid: SessionId)
    ensures Own(Partition(log, part, part(sid)), sid) == Own(log, sid)
  {
    if log == [] {
    } else {
      var n := |log| - 1;
      PartitionOwn(log[..n], part, sid);
      var before, r := Partition(log[..n], part, part(sid)), log[n];
      if part(r.key) == part(sid) {
        OwnAppend(before, r, sid);
      } else {
        assert before + [] == before;
      }
    }
  }

  lemma {:induction false} WindowAfter(rs: seq<Record>, b: int, from: int, to: int)
    requires b < from
    ensures Window(After(rs, b), from, to) == Window(rs, from, to)
  {
    if rs == [] {
    } else {
      var n := |rs| - 1;
      assert rs == rs[..n] + [rs[n]];
      WindowAfter(rs[..n], b, from, to);
      AfterAppend(rs[..n], rs[n], b);
      WindowAppend(rs[..n], rs[n], from, to);
      WindowAppend(After(rs[..n], b), rs[n], from, to);
    }
  }

  /** Every record of the session lies at or after its own start. */
  ghost predicate SinceStart(w: World, sid: SessionId)
    requires sid in w.accounts
  {
    forall i :: 0 <= i < |w.log| && w.log[i].key == sid ==> w.accounts[sid].baseOff <= w.log[i].offset
  }

  lemma {:induction false} NothingBefore(log: seq<Record>, sid: SessionId, b: int, from: int, to: int)
    requires to < b && forall i :: 0 <= i < |log| && log[i].key == sid ==> b <= log[i].offset
    ensures SessionRecords(log, sid, from, to) == []
    ensures Window(After(Own(log, sid), b), from, to) == []
  {
    if log == [] {
    } else {
      var n := |log| - 1;
      assert log == log[..n] + [log[n]];
      NothingBefore(log[..n], sid, b, from, to);
      RecordsAppend(log[..n], log[n], sid, from, to);
      OwnAppend(log[..n], log[n], sid);
      AfterAppend(Own(log[..n], sid), log[n], b);
      WindowAppend(After(Own(log[..n], sid), b), log[n], from, to);
    }
  }

  /** A session read, past the session's start or before it, serves exactly the records a reconstruction replays. */
  lemma PartitionServesRebuild(w: World, sid: SessionId, from: int, to: int)
    requires sid in w.accounts && SinceStart(w, sid)
    requires w.accounts[sid].baseOff < from || to < w.accounts[sid].baseOff
    ensures SessionRecords(Partition(w.log, w.part, w.part(sid)), sid, from, to) ==
            Window(LedgerOf(w, sid).recs, from, to)
  {
    PartitionOwn(w.log, w.part, sid);
    if w.accounts[sid].baseOff < from {
      WindowAfter(Own(w.log, sid), w.accounts[sid].baseOff, from, to);
    } else {
      NothingBefore(w.log, sid, w.accounts[sid].baseOff, from, to);
    }
  }

  /** Offsets increase within each partition, no session has records before its start, every base has canonical keys. */
  ghost predicate LogInv(w: World) {
    && (forall i, j :: 0 <= i < j < |w.log| && w.part(w.log[i].key) == w.part(w.log[j].key) ==>
          w.log[i].offset < w.log[j].offset)
    && (forall sid :: sid in w.accounts ==> CleanKeys(w.accounts[sid].base) && SinceStart(w, sid))
  }

  /** A move adds at most one record, above everything in its partition. */
  lemma NextLog(w: World, mv: Move)
    requires WorldInv(w) && Possible(w, mv)
    ensures Next(w, mv).part == w.part
    ensures Next(w, mv).log == w.log ||
      exists r :: Next(w, mv).log == w.log + [r] && NewOffset(w, r.key, r.offset)
  {
    hide Inv, LedgerOf, Enabled, Do, Honest, Rebuild, Choosable, NewOffset, IsView, Descends;
    match mv
    case Register(_) =>
    case Act(sid, step) =>
      ActLog(w, sid, step);
      if Appends(step) {
        var r := Record(step.ack.off, sid, ActEvent(w, sid, step));
        assert Next(w, mv).log == w.log + [r] && NewOffset(w, r.key, r.offset);
      }
    case Fork(_, child, _, _, off, lowerId, _) =>
      var r := Record(off, child, Event(1, lowerId, SessionStart));
      assert Next(w, mv).log == w.log + [r] && NewOffset(w, r.key, r.offset);
    case Foreign(rec) => assert Next(w, mv).log == w.log + [rec] && NewOffset(w, rec.key, rec.offset);
  }

  lemma ThroughClean(l: Ledger, k: nat)
    requires Replays(l) && k <= |l.recs| && CleanKeys(l.base)
    ensures CleanKeys(Through(l, k))
  {
    hide CleanKeys, Replay, EventsOf;
    FoldSplit(l, k, k);
    ReplayClean(l.base, EventsOf(l.recs[..k]));
  }

  lemma NextBasesClean(w: World, mv: Move, sid: SessionId)
    requires WorldInv(w) && LogInv(w) && Possible(w, mv) && sid in Next(w, mv).accounts
    ensures CleanKeys(Next(w, mv).accounts[sid].base)
  {
    hide CleanKeys, Inv, LedgerOf, Enabled, Do, Honest, Rebuild, Choosable, NewOffset, IsView, Through, Upto, TagAt,
      Descends;
    if sid in w.accounts {
      BaseOffKept(w, mv, sid);
    } else if mv.Fork? {
      ForkedAccount(w, mv);
      var l := LedgerOf(w, mv.parent);
      LedgerState(w, mv.parent);
      assert Replays(l) by { InvReplays(l); }
      if Early(l, mv.to) { EmptyClean(); } else { ThroughClean(l, Upto(l.recs, mv.to)); }
    } else {
      assert CleanKeys(EMPTY) by { EmptyClean(); }
    }
  }

  lemma InvReplays(l: Ledger)
    requires Inv(l)
    ensures Replays(l)
  {
  }

  lemma NextSinceStart(w: World, mv: Move, sid: SessionId)
    requires WorldInv(w) && LogInv(w) && Possible(w, mv) && sid in Next(w, mv).accounts
    ensures SinceStart(Next(w, mv), sid)
  {
    hide CleanKeys, Inv, LedgerOf, Enabled, Do, Honest, Rebuild, Choosable, NewOffset, IsView, Descends, BranchOrigin;
    if sid in w.accounts {
      BaseOffKept(w, mv, sid);
      assert SinceStart(w, sid);
      if mv.Act? {
        ActLog(w, mv.sid, mv.step);
        StepRecords(LedgerOf(w, mv.sid), mv.step);
        LedgerBase(w, mv.sid);
      }
    }
  }

  lemma NextKeepsLogInv(w: World, mv: Move)
    requires WorldInv(w) && LogInv(w) && Possible(w, mv)
    ensures LogInv(Next(w, mv))
  {
    hide CleanKeys, WorldInv, Possible, Next, SinceStart;
    var v := Next(w, mv);
    NextLog(w, mv);
    forall sid | sid in v.accounts ensures CleanKeys(v.accounts[sid].base) && SinceStart(v, sid) {
      NextBasesClean(w, mv, sid);
      NextSinceStart(w, mv, sid);
    }
  }

  lemma {:induction false} RunKeepsLogInv(w: World, moves: seq<Move>)
    requires WorldInv(w) && LogInv(w) && LegalMoves(w, moves)
    ensures LogInv(RunMoves(w, moves)) && WorldInv(RunMoves(w, moves))
    decreases moves
  {
    hide WorldInv, LogInv, Possible, Next;
    if moves == [] {
    } else {
      NextKeepsInv(w, moves[0]);
      NextKeepsLogInv(w, moves[0]);
      RunKeepsLogInv(Next(w, moves[0]), moves[1..]);
    }
  }

  lemma {:induction false} PartitionMembers(log: seq<Record>, part: SessionId -> nat, p: nat, i: nat)
    requires i < |Partition(log, part, p)|
    ensures part(Partition(log, part, p)[i].key) == p
    ensures exists j :: 0 <= j < |log| && log[j] == Partition(log, part, p)[i]
  {
    var n := |log| - 1;
    var before := Partition(log[..n], part, p);
    if i < |before| {
      PartitionMembers(log[..n], part, p, i);
      var j :| 0 <= j < n && log[..n][j] == before[i];
      assert log[j] == Partition(log, part, p)[i];
    } else {
      assert log[n] == Partition(log, part, p)[i];
    }
  }

  lemma {:induction false} PartitionIncreases(log: seq<Record>, part: SessionId -> nat, p: nat)
    requires forall i, j :: 0 <= i < j < |log| && part(log[i].key) == part(log[j].key) ==> log[i].offset < log[j].offset
    ensures Increasing(Partition(log, part, p))
  {
    if log == [] {
    } else {
      var n := |log| - 1;
      var before := Partition(log[..n], part, p);
      PartitionIncreases(log[..n], part, p);
      if part(log[n].key) == p {
        forall i | 0 <= i < |before| ensures before[i].offset < log[n].offset {
          PartitionMembers(log[..n], part, p, i);
          var j :| 0 <= j < n && log[..n][j] == before[i];
          assert log[j] == before[i];
        }
      }
    }
  }

  /** In every reachable world a session's partition serves its ledger, so reconstruction may read it. */
  lemma ReachableServes(part: SessionId -> nat, moves: seq<Move>, sid: SessionId)
    requires LegalMoves(Genesis(part), moves) && sid in RunMoves(Genesis(part), moves).accounts
    ensures var w := RunMoves(Genesis(part), moves);
            && Inv(LedgerOf(w, sid)) && CleanKeys(LedgerOf(w, sid).base)
            && Serves(Partition(w.log, w.part, w.part(sid)), LedgerOf(w, sid))
  {
    hide LegalMoves, RunMoves, CleanKeys, Inv, Window, SessionRecords, Partition;
    GenesisInv(part);
    RunKeepsLogInv(Genesis(part), moves);
    var w := RunMoves(Genesis(part), moves);
    PartitionIncreases(w.log, w.part, w.part(sid));
    forall from, to {:trigger Window(LedgerOf(w, sid).recs, from, to)}
      | w.accounts[sid].baseOff < from || to < w.accounts[sid].baseOff
      ensures SessionRecords(Partition(w.log, w.part, w.part(sid)), sid, from, to) ==
              Window(LedgerOf(w, sid).recs, from, to)
    {
      PartitionServesRebuild(w, sid, from, to);
    }
  }

  /** Every image a run has captured or written, whatever interleaved, holds exactly the state through its tag. */
  lemma ImageHoldsItsTag(l: Ledger, img: Image)
    requires Inv(l) && img in l.images + l.pending
    ensures IsView(img.view, Through(l, Reach(l.recs, img.tag)))
  {
    hide IsView, Through, Replays, LiveOk;
    assert Faithful(l, img);
    var k := FaithfulAt(l, img);
    ReachTag(l, k);
  }
}
