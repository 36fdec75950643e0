/**
 The partitioned log: keyed records at increasing, possibly gapped offsets, the
 replay loop that filters one session out of a partition, and the choice of the
 newest usable state image.
 */
module EventLog {
  import opened Machine
  import opened Overlay

  type SessionId = string

  datatype Record = Record(offset: int, key: SessionId, ev: Event)

  datatype ReadError = Truncated | Undecodable

  ghost predicate Increasing(rs: seq<Record>) {
    forall i, j :: 0 <= i < j < |rs| ==> rs[i].offset < rs[j].offset
  }

  /** The records of one session, in order. */
  function Own(rs: seq<Record>, sid: SessionId): seq<Record> {
    if rs == [] then []
    else Own(rs[..|rs| - 1], sid) + if rs[|rs| - 1].key == sid then [rs[|rs| - 1]] else []
  }

  /** The records with offsets in [from, to], in order. */
  function Window(rs: seq<Record>, from: int, to: int): seq<Record> {
    if rs == [] then []
    else Window(rs[..|rs| - 1], from, to) + if from <= rs[|rs| - 1].offset <= to then [rs[|rs| - 1]] else []
  }

  function EventsOf(rs: seq<Record>): (evs: seq<Event>)
    ensures |evs| == |rs| && forall i :: 0 <= i < |rs| ==> evs[i] == rs[i].ev
  {
    seq(|rs|, i requires 0 <= i < |rs| => rs[i].ev)
  }

  /** What a session read of [from, to] must return: the session's records there. */
  function SessionRecords(rs: seq<Record>, sid: SessionId, from: int, to: int): seq<Record> {
    Window(Own(rs, sid), from, to)
  }

  /** The offset after the last record, or `from` when there is none. */
  function TailAfter(rs: seq<Record>, from: int): int {
    if rs == [] then from else rs[|rs| - 1].offset + 1
  }

  // ------------------------------------------------------------------ lemmas

  lemma OwnAppend(rs: seq<Record>, r: Record, sid: SessionId)
    ensures Own(rs + [r], sid) == if r.key == sid then Own(rs, sid) + [r] else Own(rs, sid)
  {
    assert (rs + [r])[..|rs|] == rs;
  }

  lemma WindowAppend(rs: seq<Record>, r: Record, from: int, to: int)
    ensures Window(rs + [r], from, to) ==
            if from <= r.offset <= to then Window(rs, from, to) + [r] else Window(rs, from, to)
  {
    assert (rs + [r])[..|rs|] == rs;
  }

  lemma RecordsAppend(rs: seq<Record>, r: Record, sid: SessionId, from: int, to: int)
    ensures SessionRecords(rs + [r], sid, from, to) ==
            if r.key == sid && from <= r.offset <= to
            then SessionRecords(rs, sid, from, to) + [r] else SessionRecords(rs, sid, from, to)
  {
    OwnAppend(rs, r, sid);
    if r.key == sid { WindowAppend(Own(rs, sid), r, from, to); }
  }

  lemma EventsAppend(rs: seq<Record>, r: Record)
    ensures EventsOf(rs + [r]) == EventsOf(rs) + [r.ev]
  {
  }

  /** Records past the end of the window add nothing. */
  lemma {:induction false} RecordsBeyond(rs: seq<Record>, i: nat, sid: SessionId, from: int, to: int)
    requires i <= |rs| && forall k :: i <= k < |rs| ==> rs[k].offset > to
    ensures SessionRecords(rs, sid, from, to) == SessionRecords(rs[..i], sid, from, to)
    decreases |rs|
  {
    if i == |rs| {
      assert rs[..i] == rs;
    } else {
      var n := |rs| - 1;
      assert rs == rs[..n] + [rs[n]];
      RecordsAppend(rs[..n], rs[n], sid, from, to);
      RecordsBeyond(rs[..n], i, sid, from, to);
      assert rs[..n][..i] == rs[..i];
    }
  }

  /** Dropping records below the window adds and loses nothing. */
  lemma {:induction false} RecordsBelow(rs: seq<Record>, i: nat, sid: SessionId, from: int, to: int)
    requires i <= |rs| && forall k :: 0 <= k < i ==> rs[k].key != sid || rs[k].offset < from
    ensures SessionRecords(rs, sid, from, to) == SessionRecords(rs[i..], sid, from, to)
    decreases |rs|
  {
    hide SessionRecords;
    if rs == [] {
    } else if i == |rs| {
      var n := i - 1;
      assert rs == rs[..n] + [rs[n]] && rs[i..] == [] == rs[..n][n..];
      RecordsAppend(rs[..n], rs[n], sid, from, to);
      RecordsBelow(rs[..n], n, sid, from, to);
    } else {
      var n := |rs| - 1;
      assert rs == rs[..n] + [rs[n]] && rs[i..] == rs[..n][i..] + [rs[n]];
      RecordsAppend(rs[..n], rs[n], sid, from, to);
      RecordsAppend(rs[..n][i..], rs[n], sid, from, to);
      RecordsBelow(rs[..n], i, sid, from, to);
    }
  }

  // -------------------------------------------------------------- replay loop

  /** The stream reaches the end offset, so nothing in the window can be missing from it. */
  predicate Reaches(stream: seq<Record>, end: int) {
    exists i :: 0 <= i < |stream| && stream[i].offset >= end
  }

  /** Every record of the session up to the end offset decodes. */
  predicate Decodable(stream: seq<Record>, corrupt: set<int>, sid: SessionId, end: int) {
    forall i :: 0 <= i < |stream| && stream[i].key == sid && stream[i].offset <= end ==> stream[i].offset !in corrupt
  }

  /**
   Fetches until the end offset is reached. `stream` is what the consumer delivers
   before it times out or fails; `corrupt` are the offsets whose value does not decode.
   */
  method ReadSessionFromReader(stream: seq<Record>, corrupt: set<int>, sid: SessionId, from: int, end: int)
    returns (r: Result<(seq<Event>, int), ReadError>)
    requires Increasing(stream) && forall i :: 0 <= i < |stream| ==> from <= stream[i].offset
    ensures from > end ==> r == Ok(([], from))
    ensures from <= end && r.Ok? ==>
      var mine := SessionRecords(stream, sid, from, end);
      r.value == (EventsOf(mine), TailAfter(mine, from))
    ensures from <= end ==> (r.Ok? <==> Reaches(stream, end) && Decodable(stream, corrupt, sid, end))
  {
    hide SessionRecords, EventsOf, Increasing;
    if from > end {
      return Ok(([], from));
    }
    var out: seq<Event> := [];
    var last := from;
    var i := 0;
    NoRecords(sid, from, end);
    while true
      invariant 0 <= i <= |stream|
      invariant forall k :: 0 <= k < i ==> stream[k].offset < end
      invariant forall k :: 0 <= k < i && stream[k].key == sid ==> stream[k].offset !in corrupt
      invariant out == EventsOf(SessionRecords(stream[..i], sid, from, end))
      invariant last == TailAfter(SessionRecords(stream[..i], sid, from, end), from)
      decreases |stream| - i
    {
      if i == |stream| {
        return Err(Truncated);
      }
      var msg := stream[i];
      if msg.offset > end {
        NoneLater(stream, i, sid, from, end);
        return Ok((out, last));
      }
      assert stream[..i + 1] == stream[..i] + [msg];
      RecordsAppend(stream[..i], msg, sid, from, end);
      EventsAppend(SessionRecords(stream[..i], sid, from, end), msg);
      if msg.key == sid {
        if msg.offset in corrupt {
          return Err(Undecodable);
        }
        out := out + [msg.ev];
        last := msg.offset + 1;
      }
      if msg.offset >= end {
        NoneLater(stream, i + 1, sid, from, end);
        return Ok((out, last));
      }
      i := i + 1;
    }
  }

  /** Past the end offset an increasing stream holds nothing of the window. */
  lemma NoneLater(stream: seq<Record>, i: nat, sid: SessionId, from: int, end: int)
    requires Increasing(stream) && i <= |stream|
    requires (i < |stream| && stream[i].offset > end) || (0 < i && stream[i - 1].offset >= end)
    ensures SessionRecords(stream, sid, from, end) == SessionRecords(stream[..i], sid, from, end)
    ensures forall k :: i <= k < |stream| ==> end < stream[k].offset
  {
    RecordsBeyond(stream, i, sid, from, end);
  }

  lemma NoRecords(sid: SessionId, from: int, to: int)
    ensures SessionRecords([], sid, from, to) == [] && EventsOf([]) == []
  {
  }

  // ------------------------------------------------------------------- bounds

  /** The last offset a read may serve: the bound, or the record before the high-water mark. */
  function ReadEnd(highWater: int, toOffset: int): int {
    if 0 <= toOffset < highWater - 1 then toOffset else highWater - 1
  }

  /** Where a consumer started at offset `start` begins: the first record not below it. */
  function FirstAt(rs: seq<Record>, start: int): (k: nat)
    ensures k <= |rs| && (k < |rs| ==> rs[k].offset >= start)
    ensures forall j :: 0 <= j < k ==> rs[j].offset < start
  {
    if rs == [] || rs[0].offset >= start then 0 else 1 + FirstAt(rs[1..], start)
  }

  /** Retention has trimmed none of the session's records from `from` on. */
  predicate Retained(rs: seq<Record>, sid: SessionId, from: int, oldest: int) {
    forall i :: 0 <= i < |rs| && rs[i].key == sid && rs[i].offset < oldest ==> rs[i].offset < from
  }

  /** What a consumer started at offset `start` delivers before it stops. */
  function Delivered(partition: seq<Record>, start: int, count: nat): seq<Record> {
    var rest := partition[FirstAt(partition, start)..];
    if count < |rest| then rest[..count] else rest
  }

  /** The window is empty, or the consumer gets to its end and every record of the session there decodes. */
  predicate Readable(partition: seq<Record>, highWater: int, oldest: int, count: nat, corrupt: set<int>,
                     sid: SessionId, from: int, toOffset: int)
  {
    var end, start := ReadEnd(highWater, toOffset), Max(from, oldest);
    var stream := Delivered(partition, start, count);
    end < start || (Reaches(stream, end) && Decodable(stream, corrupt, sid, end))
  }

  /** The consumer delivers everything up to the high-water mark. */
  predicate Whole(partition: seq<Record>, highWater: int, count: nat) {
    partition != [] && partition[|partition| - 1].offset == highWater - 1 && |partition| <= count
  }

  lemma WholeReaches(partition: seq<Record>, highWater: int, start: int, count: nat, end: int)
    requires Increasing(partition) && Whole(partition, highWater, count) && end < highWater
    ensures start <= end ==> Reaches(Delivered(partition, start, count), end)
  {
    if start <= end {
      var k, n := FirstAt(partition, start), |partition| - 1;
      assert partition[k..][n - k] == partition[n];
    }
  }

  lemma NothingCorrupt(stream: seq<Record>, sid: SessionId, end: int)
    ensures Decodable(stream, {}, sid, end)
  {
  }

  /**
   A session read of a partition whose records below `oldest` retention has trimmed and of
   which the consumer delivers the given number of records. It succeeds exactly when the window
   can be read, and then returns exactly the session's records in it, provided none was trimmed.
   */
  method ReadSessionTo(partition: seq<Record>, highWater: int, oldest: int, count: nat, corrupt: set<int>,
                       sid: SessionId, from: int, toOffset: int)
    returns (r: Result<(seq<Event>, int), ReadError>)
    requires Increasing(partition)
    ensures r.Ok? <==> Readable(partition, highWater, oldest, count, corrupt, sid, from, toOffset)
    ensures Whole(partition, highWater, count) && corrupt == {} ==> r.Ok?
    ensures var end := if toOffset < 0 then highWater - 1 else Min(toOffset, highWater - 1);
            var mine := SessionRecords(partition, sid, from, end);
            r.Ok? && Retained(partition, sid, from, oldest) ==> r.value == (EventsOf(mine), TailAfter(mine, from))
  {
    hide SessionRecords, EventsOf, Decodable, Reaches;
    NoRecords(sid, from, ReadEnd(highWater, toOffset));
    var end := ReadEnd(highWater, toOffset);
    if Whole(partition, highWater, count) { WholeReaches(partition, highWater, Max(from, oldest), count, end); }
    NothingCorrupt(Delivered(partition, Max(from, oldest), count), sid, end);
    if from > end {
      EmptyWindow(partition, sid, from, end);
      return Ok(([], from));
    }
    var start := Max(from, oldest);
    if start > end {
      if Retained(partition, sid, from, oldest) { NothingRetained(partition, sid, from, end, oldest); }
      return Ok(([], from));
    }
    var k := FirstAt(partition, start);
    var stream := Delivered(partition, start, count);
    StreamIncreasing(partition, k, |stream|, start);
    r := ReadSessionFromReader(stream, corrupt, sid, from, end);
    if r.Ok? && Retained(partition, sid, from, oldest) {
      RecordsBelow(partition, k, sid, from, end);
      CutBeyond(partition[k..], |stream|, sid, from, end);
    }
  }

  lemma StreamIncreasing(rs: seq<Record>, k: nat, n: nat, start: int)
    requires Increasing(rs) && k + n <= |rs| && (k < |rs| ==> rs[k].offset >= start)
    ensures Increasing(rs[k..][..n]) && rs[k..][..|rs| - k] == rs[k..] && Increasing(rs[k..])
    ensures forall i :: 0 <= i < n ==> start <= rs[k..][..n][i].offset
  {
  }

  /** A delivered prefix that reaches the end offset holds the whole window. */
  lemma CutBeyond(rs: seq<Record>, n: nat, sid: SessionId, from: int, end: int)
    requires Increasing(rs) && n <= |rs| && Reaches(rs[..n], end)
    ensures SessionRecords(rs, sid, from, end) == SessionRecords(rs[..n], sid, from, end)
  {
    var m :| 0 <= m < n && rs[..n][m].offset >= end;
    assert rs[m].offset >= end;
    RecordsBeyond(rs, n, sid, from, end);
  }

  lemma {:induction false} EmptyWindow(rs: seq<Record>, sid: SessionId, from: int, to: int)
    requires from > to
    ensures SessionRecords(rs, sid, from, to) == []
  {
    if rs == [] {
    } else {
      var n := |rs| - 1;
      assert rs == rs[..n] + [rs[n]];
      RecordsAppend(rs[..n], rs[n], sid, from, to);
      EmptyWindow(rs[..n], sid, from, to);
    }
  }

  lemma {:induction false} NothingRetained(rs: seq<Record>, sid: SessionId, from: int, to: int, oldest: int)
    requires to < oldest && Retained(rs, sid, from, oldest)
    ensures SessionRecords(rs, sid, from, to) == []
  {
    if rs == [] {
    } else {
      var n := |rs| - 1;
      assert rs == rs[..n] + [rs[n]];
      RecordsAppend(rs[..n], rs[n], sid, from, to);
      NothingRetained(rs[..n], sid, from, to, oldest);
    }
  }

  // ----------------------------------------------------------- image selection

  predicate Usable(tag: Option<int>, maxOffset: int) {
    tag.Some? && tag.value >= 0 && (maxOffset < 0 || tag.value <= maxOffset)
  }

  /** The newest listed image at or below maxOffset (any, when negative); -1 when there is none. */
  method LatestStateImage(listing: seq<Option<int>>, maxOffset: int) returns (best: int)
    ensures best == -1 <==> forall i :: 0 <= i < |listing| ==> !Usable(listing[i], maxOffset)
    ensures best != -1 ==> Some(best) in listing && Usable(Some(best), maxOffset)
    ensures forall i :: 0 <= i < |listing| && Usable(listing[i], maxOffset) ==> listing[i].value <= best
  {
    best := -1;
    for i := 0 to |listing|
      invariant best == -1 || (Some(best) in listing && Usable(Some(best), maxOffset))
      invariant forall k :: 0 <= k < i && Usable(listing[k], maxOffset) ==> listing[k].value <= best
    {
      match listing[i] {
        case None =>
        case Some(off) =>
          if !(maxOffset >= 0 && off > maxOffset) && off > best {
            best := off;
          }
      }
    }
  }
}
