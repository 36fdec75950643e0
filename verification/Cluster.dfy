/**
 Many sessions over one partitioned log: appends interleave, sessions fork from
 any offset of any other, and each reads its own records back out of the log.
 */
module Cluster {
  import opened Machine
  import opened Overlay
  import opened Images
  import opened EventLog
  import opened Sessions
  import opened SessionRuns

  /**
   A child's state at birth is its parent's through offset `at`. A branch asked for at an offset
   before its parent's own start finds neither image nor record: it is born empty, detached.
   */
  datatype Origin = Root | Child(parent: SessionId, at: int) | Detached

  datatype Account = Account(
    images: set<Image>, pending: set<Image>, live: Option<Session>,
    base: State, baseOff: int, origin: Origin, born: nat, retired: seq<Session>)

  /** part assigns each session its partition; offsets increase within a partition only. */
  datatype World = World(log: seq<Record>, part: SessionId -> nat, accounts: map<SessionId, Account>, births: nat)

  datatype Move =
    | Register(sid: SessionId)
    | Act(sid: SessionId, step: Step)
    | Fork(parent: SessionId, child: SessionId, to: int, img: Option<Image>, off: int, lowerId: string, view: View)
    | Foreign(rec: Record)

  function After(rs: seq<Record>, b: int): seq<Record> {
    if rs == [] then []
    else After(rs[..|rs| - 1], b) + if rs[|rs| - 1].offset > b then [rs[|rs| - 1]] else []
  }

  /** One session's view of the world. */
  function LedgerOf(w: World, sid: SessionId): Ledger
    requires sid in w.accounts
  {
    var a := w.accounts[sid];
    Ledger(sid, After(Own(w.log, sid), a.baseOff), a.images, a.pending, a.live, a.base, a.baseOff, a.retired)
  }

  // -------------------------------------------------------------------- moves

  /** The broker hands out offsets above everything already in the partition. */
  ghost predicate NewOffset(w: World, sid: SessionId, off: int) {
    0 <= off && forall i :: 0 <= i < |w.log| && w.part(w.log[i].key) == w.part(sid) ==> w.log[i].offset < off
  }

  ghost predicate Fresh(w: World, sid: SessionId) {
    sid !in w.accounts && forall i :: 0 <= i < |w.log| ==> w.log[i].key != sid
  }

  predicate Appends(step: Step) {
    step.End? && !step.ack.Lost?
  }

  ghost predicate Possible(w: World, mv: Move) {
    match mv
    case Register(sid) => Fresh(w, sid)
    case Act(sid, step) =>
      && sid in w.accounts && Enabled(LedgerOf(w, sid), step) && Honest(LedgerOf(w, sid), step)
      && (Appends(step) ==> NewOffset(w, sid, step.ack.off))
    case Fork(parent, child, to, img, off, _, view) =>
      && parent in w.accounts && Fresh(w, child) && NewOffset(w, child, off)
      && Choosable(LedgerOf(w, parent), img, to)
      && Rebuild(LedgerOf(w, parent), img, to).Ok?
      && IsView(view, Rebuild(LedgerOf(w, parent), img, to).value.upper)
    case Foreign(rec) => rec.key !in w.accounts && NewOffset(w, rec.key, rec.offset)
  }

  ghost function BranchOrigin(w: World, mv: Move): Origin
    requires mv.Fork? && Possible(w, mv)
  {
    var l := LedgerOf(w, mv.parent);
    if Early(l, mv.to) then Detached else Child(mv.parent, Rebuild(l, mv.img, mv.to).value.covered)
  }

  ghost function Appended(l: Ledger, m: Ledger): seq<Record> {
    if |l.recs| < |m.recs| then [m.recs[|m.recs| - 1]] else []
  }

  ghost function Next(w: World, mv: Move): World
    requires Possible(w, mv)
  {
    match mv
    case Register(sid) =>
      w.(accounts := w.accounts[sid := Account({}, {}, None, EMPTY, -1, Root, w.births, [])], births := w.births + 1)
    case Act(sid, step) =>
      var l := LedgerOf(w, sid);
      var m := Do(l, step);
      w.(log := w.log + Appended(l, m),
         accounts := w.accounts[sid := w.accounts[sid].(
           images := m.images, pending := m.pending, live := m.live, retired := m.retired)])
    case Fork(parent, child, to, img, off, lowerId, view) =>
      var r := Rebuild(LedgerOf(w, parent), img, to).value;
      w.(log := w.log + [Record(off, child, Event(1, lowerId, SessionStart))],
         accounts := w.accounts[child := Account(
           {Image(off, view)}, {}, None, r.upper, off, BranchOrigin(w, mv), w.births, [])],
         births := w.births + 1)
    case Foreign(rec) => w.(log := w.log + [rec])
  }

  // --------------------------------------------------------------- invariants

  /** The child's base is its parent's state through `at`, an offset of the parent's own history. */
  ghost predicate Descends(w: World, sid: SessionId)
    requires sid in w.accounts
  {
    var a := w.accounts[sid];
    && a.born < w.births
    && match a.origin
       case Root => a.baseOff == -1
       case Detached => a.base == EMPTY && 0 <= a.baseOff
       case Child(p, at) =>
         && p in w.accounts && w.accounts[p].born < a.born
         && BranchPoint(LedgerOf(w, p), at, a.base)
  }

  ghost predicate BranchPoint(l: Ledger, at: int, state: State) {
    exists k: nat :: k <= |l.recs| && at == TagAt(l, k) && state == Through(l, k)
  }

  ghost predicate WorldInv(w: World) {
    forall sid :: sid in w.accounts ==> Inv(LedgerOf(w, sid)) && Descends(w, sid)
  }

  // -------------------------------------------------------------- view lemmas

  lemma AfterAppend(rs: seq<Record>, r: Record, b: int)
    ensures After(rs + [r], b) == if r.offset > b then After(rs, b) + [r] else After(rs, b)
  {
    assert (rs + [r])[..|rs|] == rs;
  }

  /** A record of another session is invisible. */
  lemma OtherRecord(w: World, v: World, r: Record, sid: SessionId)
    requires sid in w.accounts && sid in v.accounts && v.accounts[sid] == w.accounts[sid]
    requires v.log == w.log || (v.log == w.log + [r] && r.key != sid)
    ensures LedgerOf(v, sid) == LedgerOf(w, sid)
  {
    OwnAppend(w.log, r, sid);
  }

  lemma {:induction false} NoOwn(rs: seq<Record>, sid: SessionId)
    requires forall i :: 0 <= i < |rs| ==> rs[i].key != sid
    ensures Own(rs, sid) == []
  {
    if rs == [] {
    } else {
      NoOwn(rs[..|rs| - 1], sid);
    }
  }

  /** What a step adds to the records. */
  lemma StepRecords(l: Ledger, step: Step)
    requires Enabled(l, step) && Inv(l)
    ensures var m := Do(l, step);
            && m.sid == l.sid && m.base == l.base && m.baseOff == l.baseOff
            && m.recs == l.recs + Appended(l, m)
            && (Appends(step) <==> |l.recs| < |m.recs|)
            && (Appends(step) ==> m.recs[|l.recs|].key == l.sid && m.recs[|l.recs|].offset == step.ack.off > l.baseOff)
  {
    hide Check, Apply, Rebuild, Replays, ImagesOk, LiveOk, RetiredOk;
    if step.Stale? {
      hide Enabled, Do;
      StaleFrame(l, step.who, step.act);
    }
  }

  /** A step's record lands at the end of the session's own view. */
  lemma OwnStep(w: World, sid: SessionId, step: Step)
    requires Possible(w, Act(sid, step)) && Inv(LedgerOf(w, sid))
    ensures LedgerOf(Next(w, Act(sid, step)), sid) == Do(LedgerOf(w, sid), step)
  {
    hide Enabled, Do, Honest, Inv, Own, After, NewOffset, Appends;
    var l := LedgerOf(w, sid);
    var m := Do(l, step);
    StepRecords(l, step);
    if Appends(step) {
      var r := m.recs[|l.recs|];
      OwnAppend(w.log, r, sid);
      AfterAppend(Own(w.log, sid), r, l.baseOff);
    } else {
      assert w.log + [] == w.log;
    }
  }

  // ------------------------------------------------------------- preservation

  /** The durable part of one session only ever grows at the end. */
  ghost predicate Extends(l: Ledger, m: Ledger) {
    m.base == l.base && m.baseOff == l.baseOff && l.recs <= m.recs
  }

  lemma BranchPointKept(l: Ledger, m: Ledger, at: int, state: State)
    requires BranchPoint(l, at, state) && Extends(l, m)
    ensures BranchPoint(m, at, state)
  {
    var k: nat :| k <= |l.recs| && at == TagAt(l, k) && state == Through(l, k);
    assert m.recs[..k] == l.recs[..k];
    assert at == TagAt(m, k) && state == Through(m, k);
  }

  /** Every account survives a move, with its identity and its history as a prefix. */
  lemma NextExtends(w: World, mv: Move, sid: SessionId)
    requires Possible(w, mv) && WorldInv(w) && sid in w.accounts
    ensures var v := Next(w, mv);
            && sid in v.accounts && v.accounts[sid].origin == w.accounts[sid].origin
            && v.accounts[sid].born == w.accounts[sid].born
            && Extends(LedgerOf(w, sid), LedgerOf(v, sid)) && w.births <= v.births
    ensures (mv.Act? && mv.sid == sid) || LedgerOf(Next(w, mv), sid) == LedgerOf(w, sid)
  {
    hide Enabled, Do, Honest, Inv, Own, After, NewOffset, Rebuild, Choosable, LedgerOf, Descends;
    match mv
    case Register(x) => OtherRecord(w, Next(w, mv), Record(0, x, Event(0, "", SessionStart)), sid);
    case Act(x, step) =>
      StepRecords(LedgerOf(w, x), step);
      OwnStep(w, x, step);
      ActLog(w, x, step);
      if x != sid {
        OtherRecord(w, Next(w, mv), Record(if Appends(step) then step.ack.off else 0, x, ActEvent(w, x, step)), sid);
      }
    case Fork(p, c, to, img, off, lowerId, view) =>
      OtherRecord(w, Next(w, mv), Record(off, c, Event(1, lowerId, SessionStart)), sid);
    case Foreign(rec) => OtherRecord(w, Next(w, mv), rec, sid);
  }

  ghost function ActEvent(w: World, x: SessionId, step: Step): Event
    requires Possible(w, Act(x, step))
  {
    var m := Do(LedgerOf(w, x), step);
    if m.recs == [] then Event(0, "", SessionStart) else m.recs[|m.recs| - 1].ev
  }

  /** The only record a step adds to the log is one of its own session. */
  lemma ActLog(w: World, x: SessionId, step: Step)
    requires Possible(w, Act(x, step)) && Inv(LedgerOf(w, x))
    ensures var v := Next(w, Act(x, step));
            if Appends(step) then v.log == w.log + [Record(step.ack.off, x, ActEvent(w, x, step))] else v.log == w.log
    ensures forall y :: y in w.accounts && y != x ==>
      y in Next(w, Act(x, step)).accounts && Next(w, Act(x, step)).accounts[y] == w.accounts[y]
    ensures x in Next(w, Act(x, step)).accounts && Next(w, Act(x, step)).accounts[x].origin == w.accounts[x].origin
    ensures Next(w, Act(x, step)).accounts[x].born == w.accounts[x].born
    ensures Next(w, Act(x, step)).accounts.Keys == w.accounts.Keys && Next(w, Act(x, step)).births == w.births
  {
    hide Enabled, Do, Honest, Inv, Own, After, NewOffset;
    StepRecords(LedgerOf(w, x), step);
  }

  lemma DescendsKept(w: World, mv: Move, sid: SessionId)
    requires Possible(w, mv) && WorldInv(w) && sid in w.accounts
    ensures sid in Next(w, mv).accounts && Descends(Next(w, mv), sid)
  {
    hide Possible, Next, Inv, LedgerOf, BranchPoint, Extends;
    NextExtends(w, mv, sid);
    assert Descends(w, sid);
    var a := w.accounts[sid];
    BaseOffKept(w, mv, sid);
    if a.origin.Child? {
      NextExtends(w, mv, a.origin.parent);
      BranchPointKept(LedgerOf(w, a.origin.parent), LedgerOf(Next(w, mv), a.origin.parent), a.origin.at, a.base);
    }
  }

  lemma BaseOffKept(w: World, mv: Move, sid: SessionId)
    requires Possible(w, mv) && WorldInv(w) && sid in w.accounts && sid in Next(w, mv).accounts
    ensures Next(w, mv).accounts[sid].baseOff == w.accounts[sid].baseOff
    ensures Next(w, mv).accounts[sid].base == w.accounts[sid].base
  {
    hide Inv, Enabled, Honest, NewOffset, Rebuild, Choosable, LedgerOf, Do, IsView;
  }

  lemma RegisteredOk(w: World, sid: SessionId)
    requires Possible(w, Register(sid))
    ensures var v := Next(w, Register(sid)); Inv(LedgerOf(v, sid)) && Descends(v, sid)
  {
    hide Inv;
    NoOwn(w.log, sid);
    NewRootInv(sid);
  }

  /** The parent offset a fork to offset `to` starts through. */
  ghost function ForkOrigin(l: Ledger, to: int): Origin {
    if Early(l, to) then Detached else Child(l.sid, TagAt(l, Upto(l.recs, to)))
  }

  /** Every session can be branched at every offset: some image can be chosen, and no reconstruction fails. */
  lemma ForkIsPossible(w: World, mv: Move)
    requires WorldInv(w) && mv.Fork? && mv.parent in w.accounts && Fresh(w, mv.child) && NewOffset(w, mv.child, mv.off)
    requires Choosable(LedgerOf(w, mv.parent), mv.img, mv.to)
    requires IsView(mv.view, StateTo(LedgerOf(w, mv.parent), mv.to))
    ensures Possible(w, mv)
  {
    hide Inv, Rebuild, Choosable, LedgerOf, IsView, StateTo, Descends, NewOffset, Fresh;
    RebuildIsStateTo(LedgerOf(w, mv.parent), mv.img, mv.to);
  }

  /** What a fork adds to the world. */
  lemma ForkedAccount(w: World, mv: Move)
    requires mv.Fork? && Possible(w, mv) && WorldInv(w)
    ensures var v, l := Next(w, mv), LedgerOf(w, mv.parent);
            && mv.child in v.accounts && Inv(l)
            && v.accounts[mv.child] ==
               Account({Image(mv.off, mv.view)}, {}, None, StateTo(l, mv.to), mv.off,
                 ForkOrigin(l, mv.to), w.births, [])
            && v.log == w.log + [Record(mv.off, mv.child, Event(1, mv.lowerId, SessionStart))]
            && IsView(mv.view, StateTo(l, mv.to)) && 0 <= mv.off
            && w.accounts[mv.parent].born < w.births && v.births == w.births + 1
  {
    hide Inv, Rebuild, Choosable, LedgerOf, IsView, StateTo, TagAt, Upto;
    assert Descends(w, mv.parent);
    LedgerBase(w, mv.parent);
    RebuildIsStateTo(LedgerOf(w, mv.parent), mv.img, mv.to);
  }

  lemma LedgerBase(w: World, sid: SessionId)
    requires sid in w.accounts
    ensures LedgerOf(w, sid).baseOff == w.accounts[sid].baseOff && LedgerOf(w, sid).sid == sid
  {
  }

  /** A fork's ledger starts from the state its parent's reconstruction produced. */
  lemma ForkedLedger(w: World, mv: Move)
    requires mv.Fork? && Possible(w, mv) && WorldInv(w)
    ensures mv.child in Next(w, mv).accounts && Inv(LedgerOf(Next(w, mv), mv.child))
    ensures LedgerOf(Next(w, mv), mv.child).recs == []
  {
    hide Possible, Next, Inv, Own, After, IsView, StateTo, ForkOrigin, WorldInv;
    ForkedAccount(w, mv);
    FreshFork(w, Record(mv.off, mv.child, Event(1, mv.lowerId, SessionStart))) by { ForkIsFresh(w, mv); }
    ForkLedger(LedgerOf(Next(w, mv), mv.child), mv.view);
  }

  lemma ForkedDescends(w: World, mv: Move)
    requires mv.Fork? && Possible(w, mv) && WorldInv(w)
    ensures mv.child in Next(w, mv).accounts && Descends(Next(w, mv), mv.child)
  {
    hide Possible, Next, Inv, LedgerOf, IsView, Through, TagAt, Upto, WorldInv, BranchPoint, Extends;
    ForkedAccount(w, mv);
    ParentKept(w, mv);
    LedgerBase(w, mv.parent);
    var v, l := Next(w, mv), LedgerOf(w, mv.parent);
    if !Early(l, mv.to) {
      AtBranchPoint(l, Upto(l.recs, mv.to));
      BranchPointKept(l, LedgerOf(v, mv.parent), v.accounts[mv.child].origin.at, v.accounts[mv.child].base);
    }
  }

  lemma ForkIsFresh(w: World, mv: Move)
    requires mv.Fork? && Possible(w, mv)
    ensures Fresh(w, mv.child)
  {
  }

  lemma AtBranchPoint(l: Ledger, k: nat)
    requires k <= |l.recs|
    ensures BranchPoint(l, TagAt(l, k), Through(l, k))
  {
  }

  lemma ParentKept(w: World, mv: Move)
    requires mv.Fork? && Possible(w, mv) && WorldInv(w)
    ensures var v := Next(w, mv);
            && mv.parent in w.accounts && mv.parent in v.accounts
            && v.accounts[mv.parent].born == w.accounts[mv.parent].born
            && Extends(LedgerOf(w, mv.parent), LedgerOf(v, mv.parent))
  {
    hide Inv, Rebuild, Choosable, LedgerOf, IsView;
    NextExtends(w, mv, mv.parent);
  }

  lemma FreshFork(w: World, start: Record)
    requires Fresh(w, start.key)
    ensures After(Own(w.log + [start], start.key), start.offset) == []
  {
    NoOwn(w.log, start.key);
    OwnAppend(w.log, start, start.key);
    AfterAppend([], start, start.offset);
    assert [] + [start] == [start];
  }

  lemma ForkLedger(l: Ledger, view: View)
    requires l.recs == [] && l.pending == {} && l.live.None? && l.retired == [] && 0 <= l.baseOff
    requires l.images == {Image(l.baseOff, view)} && IsView(view, l.base)
    ensures Inv(l)
  {
    hide IsView, Replay;
    EmptyFold(l.base);
    assert l.recs[..0] == [];
    NewlyFaithful(l, Image(l.baseOff, view), 0);
  }

  /** Every move of every session keeps the world's invariant. */
  lemma NextKeepsInv(w: World, mv: Move)
    requires WorldInv(w) && Possible(w, mv)
    ensures WorldInv(Next(w, mv))
  {
    hide Inv, LedgerOf, Descends, Enabled, Do, Honest, Rebuild, Choosable, NewOffset, IsView;
    var v := Next(w, mv);
    forall sid | sid in v.accounts ensures Inv(LedgerOf(v, sid)) && Descends(v, sid) {
      if sid in w.accounts {
        assert Inv(LedgerOf(w, sid));
        DescendsKept(w, mv, sid);
        NextExtends(w, mv, sid);
        if mv.Act? && mv.sid == sid {
          OwnStep(w, sid, mv.step);
          StepKeepsInv(LedgerOf(w, sid), mv.step);
        }
      } else if mv.Register? {
        RegisteredOk(w, sid);
      } else {
        ForkedLedger(w, mv);
        ForkedDescends(w, mv);
      }
    }
  }
}
