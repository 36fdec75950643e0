/**
 The sparse extent list of one overlay file. A list denotes a partial map from
 file offsets to cells (a byte position inside a blob); every operation is
 specified by what it does to that map.
 */
module Extents {
  import opened Machine

  type BlobId = string

  /** One byte of one blob. */
  datatype Cell = Cell(blob: BlobId, pos: int)

  datatype Extent = Extent(off: int, len: nat, blob: BlobId, boff: nat) {

    function End(): int { Int64(off + len) }

    predicate Covers(p: int) { off <= p < off + len }

    function CellAt(p: int): Cell { Cell(blob, boff + p - off) }

    /** The numeric hypothesis: a non-empty range that wraps neither in the file nor in the blob. */
    ghost predicate Sane() {
      0 <= off && 0 < len && off + len < TWO63 && boff + len < TWO64
    }
  }

  /** What the list stores at file offset p. */
  function At(xs: seq<Extent>, p: int): Option<Cell> {
    if xs == [] then None
    else if xs[0].Covers(p) then Some(xs[0].CellAt(p))
    else At(xs[1..], p)
  }

  ghost predicate Disjoint(x: Extent, y: Extent) {
    x.off + x.len <= y.off || y.off + y.len <= x.off
  }

  /** Sorted, pairwise disjoint, every extent sane, none starting before lo. */
  ghost predicate TidyFrom(xs: seq<Extent>, lo: int) {
    xs == [] || (lo <= xs[0].off && xs[0].Sane() && TidyFrom(xs[1..], xs[0].off + xs[0].len))
  }

  ghost predicate Tidy(xs: seq<Extent>) {
    TidyFrom(xs, 0)
  }

  predicate Adjacent(a: Extent, b: Extent) {
    a.End() == b.off && a.blob == b.blob && Uint64(a.boff + a.len) == b.boff
  }

  /** No two neighbours could be described by one extent. */
  ghost predicate Tight(xs: seq<Extent>) {
    |xs| <= 1 || (!Adjacent(xs[0], xs[1]) && Tight(xs[1..]))
  }

  ghost predicate Compact(xs: seq<Extent>) {
    Tidy(xs) && Tight(xs)
  }

  /** Two lists that store the same cell at every offset. */
  ghost predicate SameMap(xs: seq<Extent>, ys: seq<Extent>) {
    forall p :: At(xs, p) == At(ys, p)
  }

  /** The list stores nothing at or past offset n. */
  ghost predicate Within(xs: seq<Extent>, n: int) {
    forall p :: At(xs, p).Some? ==> p < n
  }

  // ---------------------------------------------------------------- insertion

  predicate Overlaps(x: Extent, s: int, e: int) { x.End() > s && x.off < e }

  /** The parts of x that lie outside e. */
  function Pieces(x: Extent, e: Extent): seq<Extent> {
    if !Overlaps(x, e.off, e.End()) then [x]
    else
      (if x.off < e.off then [Extent(x.off, Uint64(e.off - x.off), x.blob, x.boff)] else []) +
      (if x.End() > e.End()
       then [Extent(e.End(), Uint64(x.End() - e.End()), x.blob, Uint64(x.boff + (e.End() - x.off)))]
       else [])
  }

  function Split(xs: seq<Extent>, e: Extent): seq<Extent> {
    if xs == [] then [] else Pieces(xs[0], e) + Split(xs[1..], e)
  }

  function Place(x: Extent, ys: seq<Extent>): seq<Extent> {
    if ys == [] then [x]
    else if x.off <= ys[0].off then [x] + ys
    else [ys[0]] + Place(x, ys[1..])
  }

  function Sort(xs: seq<Extent>): seq<Extent> {
    if xs == [] then [] else Place(xs[0], Sort(xs[1..]))
  }

  /** Folds the rest of a list into its last kept extent. */
  function Merge(last: Extent, rest: seq<Extent>): seq<Extent>
    decreases rest
  {
    if rest == [] then [last]
    else if Adjacent(last, rest[0]) then Merge(last.(len := Uint64(last.len + rest[0].len)), rest[1..])
    else [last] + Merge(rest[0], rest[1..])
  }

  function Coalesce(xs: seq<Extent>): seq<Extent> {
    if xs == [] then [] else Merge(xs[0], xs[1..])
  }

  function Insert(xs: seq<Extent>, e: Extent): seq<Extent> {
    if e.len == 0 then xs else Coalesce(Sort(Split(xs, e) + [e]))
  }

  function ClipOne(x: Extent, end: int): Extent {
    if x.End() > end then x.(len := Uint64(end - x.off)) else x
  }

  function Clip(xs: seq<Extent>, end: int): seq<Extent> {
    if xs == [] then []
    else if xs[0].off >= end then Clip(xs[1..], end)
    else [ClipOne(xs[0], end)] + Clip(xs[1..], end)
  }

  /** The end of the furthest extent, at least 0. */
  function ExtentEnd(xs: seq<Extent>): int {
    if xs == [] then 0 else Max(xs[0].End(), ExtentEnd(xs[1..]))
  }

  // ------------------------------------------------------------- basic lemmas

  lemma {:induction false} AtAppend(xs: seq<Extent>, ys: seq<Extent>, p: int)
    ensures At(xs + ys, p) == if At(xs, p).Some? then At(xs, p) else At(ys, p)
  {
    if xs == [] {
      assert xs + ys == ys;
    } else {
      assert (xs + ys)[1..] == xs[1..] + ys;
      AtAppend(xs[1..], ys, p);
    }
  }

  lemma AtCons(x: Extent, ys: seq<Extent>, p: int)
    ensures At([x] + ys, p) == if x.Covers(p) then Some(x.CellAt(p)) else At(ys, p)
  {
    assert ([x] + ys)[1..] == ys;
  }

  lemma TidyCons(x: Extent, ys: seq<Extent>, lo: int)
    ensures TidyFrom([x] + ys, lo) <==> lo <= x.off && x.Sane() && TidyFrom(ys, x.off + x.len)
  {
    assert ([x] + ys)[1..] == ys;
  }

  lemma {:induction false} AtBelow(xs: seq<Extent>, p: int, lo: int)
    requires TidyFrom(xs, lo) && p < lo
    ensures At(xs, p).None?
  {
    if xs == [] {
    } else {
      AtBelow(xs[1..], p, xs[0].off + xs[0].len);
    }
  }

  lemma {:induction false} ExtentEndBounds(xs: seq<Extent>, lo: int)
    requires TidyFrom(xs, lo)
    ensures Within(xs, ExtentEnd(xs))
    ensures xs != [] ==> At(xs, ExtentEnd(xs) - 1).Some? && xs[0].off + xs[0].len <= ExtentEnd(xs) < TWO63
  {
    if xs == [] {
    } else {
      ExtentEndBounds(xs[1..], xs[0].off + xs[0].len);
      forall p | At(xs, p).Some? ensures p < ExtentEnd(xs) {
        assert At(xs, p) == At(xs[1..], p) || xs[0].Covers(p);
      }
    }
  }

  // ---------------------------------------------------------------- insertion

  /** e overlaps nothing in the list. */
  ghost predicate ClearOf(e: Extent, ys: seq<Extent>) {
    ys == [] || (Disjoint(e, ys[0]) && ClearOf(e, ys[1..]))
  }

  lemma PiecesCases(x: Extent, e: Extent) returns (left: Extent, right: Extent)
    requires x.Sane() && e.Sane()
    ensures left == Extent(x.off, if x.off < e.off then e.off - x.off else 0, x.blob, x.boff)
    ensures var end := e.off + e.len;
            right == Extent(end, if end < x.off + x.len then x.off + x.len - end else 0,
                            x.blob, Uint64(x.boff + (end - x.off)))
    ensures Pieces(x, e) == if Disjoint(x, e) then [x]
                            else if x.off < e.off && right.len > 0 then [left] + [right]
                            else if x.off < e.off then [left]
                            else if right.len > 0 then [right]
                            else []
  {
    var end := e.off + e.len;
    left := Extent(x.off, if x.off < e.off then e.off - x.off else 0, x.blob, x.boff);
    right := Extent(end, if end < x.off + x.len then x.off + x.len - end else 0,
                    x.blob, Uint64(x.boff + (end - x.off)));
  }

  lemma PiecesTidy(x: Extent, e: Extent, ys: seq<Extent>, lo: int)
    requires lo <= x.off && x.Sane() && e.Sane()
    requires TidyFrom(ys, x.off + x.len) && ClearOf(e, ys)
    ensures TidyFrom(Pieces(x, e) + ys, lo) && ClearOf(e, Pieces(x, e) + ys)
  {
    var left, right := PiecesCases(x, e);
    TidyLower(x.off + x.len, right.off + right.len, ys);
    TidyLower(x.off + x.len, left.off + left.len, ys);
    TidyLower(x.off + x.len, lo, ys);
    ConsClear(e, x, ys);
    ConsClear(e, right, ys);
    ConsClear(e, left, ys);
    ConsClear(e, left, [right] + ys);
    TidyCons(x, ys, lo);
    TidyCons(right, ys, lo);
    TidyCons(right, ys, left.off + left.len);
    TidyCons(left, ys, lo);
    TidyCons(left, [right] + ys, lo);
    assert [left] + [right] + ys == [left] + ([right] + ys);
    assert [] + ys == ys;
  }

  lemma ConsClear(e: Extent, x: Extent, ys: seq<Extent>)
    ensures ClearOf(e, [x] + ys) <==> Disjoint(e, x) && ClearOf(e, ys)
  {
    assert ([x] + ys)[1..] == ys;
  }

  /** A lower bound may be weakened. */
  lemma TidyLower(hi: int, lo: int, xs: seq<Extent>)
    requires TidyFrom(xs, hi)
    ensures lo <= hi ==> TidyFrom(xs, lo)
  {
  }

  lemma PiecesAt(x: Extent, e: Extent, p: int)
    requires x.Sane() && e.Sane()
    ensures At(Pieces(x, e), p) == if x.Covers(p) && !e.Covers(p) then Some(x.CellAt(p)) else None
  {
    var left, right := PiecesCases(x, e);
    AtCons(left, [right], p);
    assert forall y: Extent :: At([y], p) == if y.Covers(p) then Some(y.CellAt(p)) else None;
  }

  lemma {:induction false} SplitTidy(xs: seq<Extent>, e: Extent, lo: int)
    requires TidyFrom(xs, lo) && e.Sane()
    ensures TidyFrom(Split(xs, e), lo) && ClearOf(e, Split(xs, e))
  {
    if xs == [] {
    } else {
      SplitTidy(xs[1..], e, xs[0].off + xs[0].len);
      PiecesTidy(xs[0], e, Split(xs[1..], e), lo);
    }
  }

  lemma {:induction false} SplitAt(xs: seq<Extent>, e: Extent, p: int, lo: int)
    requires TidyFrom(xs, lo) && e.Sane()
    ensures At(Split(xs, e), p) == if e.Covers(p) then None else At(xs, p)
  {
    if xs == [] {
    } else {
      SplitAt(xs[1..], e, p, xs[0].off + xs[0].len);
      AtAppend(Pieces(xs[0], e), Split(xs[1..], e), p);
      PiecesAt(xs[0], e, p);
    }
  }

  /** All sane and pairwise disjoint, in any order. */
  ghost predicate Apart(xs: seq<Extent>) {
    xs == [] || (xs[0].Sane() && ClearOf(xs[0], xs[1..]) && Apart(xs[1..]))
  }

  lemma {:induction false} TidyClear(xs: seq<Extent>, x: Extent, lo: int)
    requires TidyFrom(xs, lo) && x.off + x.len <= lo
    ensures ClearOf(x, xs)
  {
    if xs == [] {
    } else {
      TidyClear(xs[1..], x, xs[0].off + xs[0].len);
    }
  }

  lemma {:induction false} ClearAppend(x: Extent, ys: seq<Extent>, e: Extent)
    requires ClearOf(x, ys) && Disjoint(x, e)
    ensures ClearOf(x, ys + [e])
  {
    if ys == [] {
      assert ys + [e] == [e];
    } else {
      assert (ys + [e])[1..] == ys[1..] + [e];
      ClearAppend(x, ys[1..], e);
    }
  }

  lemma {:induction false} ApartAppend(ys: seq<Extent>, e: Extent, lo: int)
    requires TidyFrom(ys, lo) && ClearOf(e, ys) && e.Sane()
    ensures Apart(ys + [e])
  {
    if ys == [] {
      assert ys + [e] == [e];
    } else {
      assert (ys + [e])[1..] == ys[1..] + [e];
      ApartAppend(ys[1..], e, ys[0].off + ys[0].len);
      TidyClear(ys[1..], ys[0], ys[0].off + ys[0].len);
      ClearAppend(ys[0], ys[1..], e);
    }
  }

  lemma {:induction false} PlaceTidy(x: Extent, ys: seq<Extent>, lo: int)
    requires TidyFrom(ys, lo) && x.Sane() && lo <= x.off && ClearOf(x, ys)
    ensures TidyFrom(Place(x, ys), lo)
  {
    if ys == [] || x.off <= ys[0].off {
      TidyCons(x, ys, lo);
    } else {
      PlaceTidy(x, ys[1..], ys[0].off + ys[0].len);
      TidyCons(ys[0], Place(x, ys[1..]), lo);
    }
  }

  lemma {:induction false} PlaceAt(x: Extent, ys: seq<Extent>, p: int, lo: int)
    requires TidyFrom(ys, lo) && ClearOf(x, ys)
    ensures At(Place(x, ys), p) == if x.Covers(p) then Some(x.CellAt(p)) else At(ys, p)
  {
    if ys == [] || x.off <= ys[0].off {
      AtCons(x, ys, p);
    } else {
      PlaceAt(x, ys[1..], p, ys[0].off + ys[0].len);
      AtCons(ys[0], Place(x, ys[1..]), p);
    }
  }

  lemma {:induction false} PlaceClear(e: Extent, x: Extent, ys: seq<Extent>)
    requires ClearOf(e, ys) && Disjoint(e, x)
    ensures ClearOf(e, Place(x, ys))
  {
    if ys == [] || x.off <= ys[0].off {
      ConsClear(e, x, ys);
    } else {
      PlaceClear(e, x, ys[1..]);
      ConsClear(e, ys[0], Place(x, ys[1..]));
    }
  }

  lemma {:induction false} SortClear(e: Extent, zs: seq<Extent>)
    requires ClearOf(e, zs)
    ensures ClearOf(e, Sort(zs))
  {
    if zs == [] {
    } else {
      SortClear(e, zs[1..]);
      PlaceClear(e, zs[0], Sort(zs[1..]));
    }
  }

  lemma {:induction false} SortMeaning(zs: seq<Extent>)
    requires Apart(zs)
    ensures Tidy(Sort(zs)) && SameMap(Sort(zs), zs)
  {
    if zs == [] {
    } else {
      SortMeaning(zs[1..]);
      SortClear(zs[0], zs[1..]);
      PlaceTidy(zs[0], Sort(zs[1..]), 0);
      forall p ensures At(Sort(zs), p) == At(zs, p) {
        PlaceAt(zs[0], Sort(zs[1..]), p, 0);
      }
    }
  }

  /** Folding a list into its first extent keeps where it starts and what it stores, and leaves it tight. */
  lemma {:induction false} MergeMeaning(lo: int, last: Extent, rest: seq<Extent>)
    requires lo <= last.off && last.Sane() && TidyFrom(rest, last.off + last.len)
    ensures var r := Merge(last, rest);
            && TidyFrom(r, lo) && Tight(r) && r != []
            && r[0].off == last.off && r[0].blob == last.blob && r[0].boff == last.boff
    ensures forall p :: At(Merge(last, rest), p) == if last.Covers(p) then Some(last.CellAt(p)) else At(rest, p)
    decreases rest
  {
    if rest == [] {
      TidyCons(last, [], lo);
    } else if Adjacent(last, rest[0]) {
      MergeMeaning(lo, last.(len := Uint64(last.len + rest[0].len)), rest[1..]);
    } else {
      MergeMeaning(last.off + last.len, rest[0], rest[1..]);
      var tail := Merge(rest[0], rest[1..]);
      TidyCons(last, tail, lo);
      assert ([last] + tail)[1..] == tail;
    }
  }

  /** Insertion keeps canonical form and overrides exactly the new range. */
  lemma InsertMeaning(xs: seq<Extent>, e: Extent)
    requires Tidy(xs) && e.Sane()
    ensures Compact(Insert(xs, e))
    ensures forall p :: At(Insert(xs, e), p) == if e.Covers(p) then Some(e.CellAt(p)) else At(xs, p)
  {
    var parts := Split(xs, e);
    hide Split, Sort, Apart, ClearOf, Merge;
    SplitTidy(xs, e, 0);
    ApartAppend(parts, e, 0);
    SortMeaning(parts + [e]);
    var sorted := Sort(parts + [e]);
    forall p ensures At(sorted, p) == if e.Covers(p) then Some(e.CellAt(p)) else At(xs, p) {
      AtAppend(parts, [e], p);
      SplitAt(xs, e, p, 0);
    }
    assert At(sorted, e.off).Some?;
    MergeMeaning(0, sorted[0], sorted[1..]);
  }

  // ----------------------------------------------------------------- clipping

  lemma {:induction false} ClipPastEnd(xs: seq<Extent>, end: int, lo: int)
    requires TidyFrom(xs, lo) && end <= lo
    ensures Clip(xs, end) == []
  {
    if xs == [] {
    } else {
      ClipPastEnd(xs[1..], end, xs[0].off + xs[0].len);
    }
  }

  lemma {:induction false} ClipTidy(xs: seq<Extent>, end: int, lo: int)
    requires TidyFrom(xs, lo) && end < TWO63
    ensures TidyFrom(Clip(xs, end), lo) && (Tight(xs) ==> Tight(Clip(xs, end)))
    ensures forall p :: At(Clip(xs, end), p) == if p < end then At(xs, p) else None
    ensures xs != [] && xs[0].off < end ==> Clip(xs, end) != [] && Clip(xs, end)[0] == ClipOne(xs[0], end)
  {
    if xs == [] {
    } else {
      var next := xs[0].off + xs[0].len;
      ClipTidy(xs[1..], end, next);
      if end <= next { ClipPastEnd(xs[1..], end, next); }
      if |xs| > 1 && end <= xs[1].off { ClipPastEnd(xs[1..], end, xs[1].off); }
      if xs[0].off < end {
        var x, rest := ClipOne(xs[0], end), Clip(xs[1..], end);
        TidyCons(x, rest, lo);
        assert ([x] + rest)[1..] == rest;
      }
      forall p ensures At(Clip(xs, end), p) == if p < end then At(xs, p) else None {
        ClipAt(xs, end, p, lo);
      }
    }
  }

  lemma ClipAt(xs: seq<Extent>, end: int, p: int, lo: int)
    requires TidyFrom(xs, lo) && end < TWO63 && xs != []
    requires At(Clip(xs[1..], end), p) == if p < end then At(xs[1..], p) else None
    ensures At(Clip(xs, end), p) == if p < end then At(xs, p) else None
  {
    if xs[0].off < end {
      AtCons(ClipOne(xs[0], end), Clip(xs[1..], end), p);
    }
  }

  /** Clipping keeps canonical form and restricts the map to the offsets below the end. */
  lemma ClipMeaning(xs: seq<Extent>, end: int)
    requires Tidy(xs) && end < TWO63
    ensures Tidy(Clip(xs, end)) && (Tight(xs) ==> Tight(Clip(xs, end)))
    ensures forall p :: At(Clip(xs, end), p) == if p < end then At(xs, p) else None
  {
    ClipTidy(xs, end, 0);
  }

  // --------------------------------------------------------------- canonicity

  /** The list is a function of the map it denotes. */
  lemma CompactUnique(xs: seq<Extent>, ys: seq<Extent>)
    requires Compact(xs) && Compact(ys) && SameMap(xs, ys)
    ensures xs == ys
  {
    CompactUniqueFrom(xs, ys, 0);
  }

  lemma {:induction false} CompactUniqueFrom(xs: seq<Extent>, ys: seq<Extent>, lo: int)
    requires TidyFrom(xs, lo) && Tight(xs) && TidyFrom(ys, lo) && Tight(ys) && SameMap(xs, ys)
    ensures xs == ys
  {
    HeadStart(xs, ys, lo);
    HeadStart(ys, xs, lo);
    if xs == [] {
    } else {
      assert At(xs, xs[0].off) == At(ys, xs[0].off);
      HeadLength(xs, ys, lo);
      HeadLength(ys, xs, lo);
      assert xs[0] == ys[0];
      var next := xs[0].off + xs[0].len;
      forall p ensures At(xs[1..], p) == At(ys[1..], p) {
        assert At(xs, p) == At(ys, p);
        if p < next { AtBelow(xs[1..], p, next); AtBelow(ys[1..], p, next); }
      }
      CompactUniqueFrom(xs[1..], ys[1..], next);
    }
  }

  lemma HeadStart(xs: seq<Extent>, ys: seq<Extent>, lo: int)
    requires TidyFrom(xs, lo) && TidyFrom(ys, lo) && SameMap(xs, ys)
    ensures xs != [] ==> ys != [] && ys[0].off <= xs[0].off
  {
    if xs != [] {
      assert At(xs, xs[0].off) == At(ys, xs[0].off);
      if ys != [] { TidyLower(ys[0].off, ys[0].off, ys); }
      if ys != [] && xs[0].off < ys[0].off { AtBelow(ys, xs[0].off, ys[0].off); }
    }
  }

  /** A head that stops short of the other list's head is continued by its own neighbour. */
  lemma HeadLength(xs: seq<Extent>, ys: seq<Extent>, lo: int)
    requires TidyFrom(xs, lo) && TidyFrom(ys, lo) && SameMap(xs, ys) && xs != [] && ys != []
    requires xs[0].off == ys[0].off && xs[0].blob == ys[0].blob && xs[0].boff == ys[0].boff
    ensures xs[0].len < ys[0].len ==> |xs| > 1 && Adjacent(xs[0], xs[1])
  {
    var p := xs[0].off + xs[0].len;
    if xs[0].len < ys[0].len {
      assert At(ys, p) == Some(Cell(xs[0].blob, xs[0].boff + xs[0].len));
      assert At(xs, p) == At(xs[1..], p) == At(ys, p);
      if |xs| > 1 && p < xs[1].off { AtBelow(xs[1..], p, xs[1].off); }
    }
  }

  /** Writes to disjoint ranges commute, down to the stored list. */
  lemma DisjointInsertsCommute(xs: seq<Extent>, d: Extent, e: Extent)
    requires Tidy(xs) && d.Sane() && e.Sane() && Disjoint(d, e)
    ensures Insert(Insert(xs, d), e) == Insert(Insert(xs, e), d)
  {
    InsertMeaning(xs, d);
    InsertMeaning(xs, e);
    InsertMeaning(Insert(xs, d), e);
    InsertMeaning(Insert(xs, e), d);
    CompactUnique(Insert(Insert(xs, d), e), Insert(Insert(xs, e), d));
  }

  // ------------------------------------------------- independence of the sort

  ghost predicate SortedByOffset(xs: seq<Extent>) {
    forall i, j :: 0 <= i < j < |xs| ==> xs[i].off <= xs[j].off
  }

  lemma {:induction false} PlaceKeepsElements(x: Extent, ys: seq<Extent>)
    ensures multiset(Place(x, ys)) == multiset{x} + multiset(ys)
  {
    if ys == [] || x.off <= ys[0].off {
    } else {
      PlaceKeepsElements(x, ys[1..]);
      assert ys == [ys[0]] + ys[1..];
    }
  }

  lemma {:induction false} SortKeepsElements(zs: seq<Extent>)
    ensures multiset(Sort(zs)) == multiset(zs)
  {
    if zs == [] {
    } else {
      SortKeepsElements(zs[1..]);
      PlaceKeepsElements(zs[0], Sort(zs[1..]));
      assert zs == [zs[0]] + zs[1..];
    }
  }

  /** Whatever algorithm sorts the split list by offset, the outcome is the same. */
  lemma SortIsUnique(zs: seq<Extent>, ys: seq<Extent>)
    requires Apart(zs)
    requires multiset(ys) == multiset(zs) && SortedByOffset(ys)
    ensures ys == Sort(zs)
  {
    SortMeaning(zs);
    SortKeepsElements(zs);
    TidyPermutation(Sort(zs), ys, 0);
  }

  lemma {:induction false} TidyPermutation(xs: seq<Extent>, ys: seq<Extent>, lo: int)
    requires TidyFrom(xs, lo) && SortedByOffset(ys) && multiset(xs) == multiset(ys)
    ensures xs == ys
  {
    assert |xs| == |multiset(xs)| == |multiset(ys)| == |ys|;
    if xs == [] {
    } else {
      SameHead(xs, ys, lo);
      RemoveHead(xs);
      RemoveHead(ys);
      TidyPermutation(xs[1..], ys[1..], xs[0].off + xs[0].len);
      assert xs == [xs[0]] + xs[1..] && ys == [ys[0]] + ys[1..];
    }
  }

  lemma RemoveHead(xs: seq<Extent>)
    requires xs != []
    ensures multiset(xs[1..]) == multiset(xs) - multiset{xs[0]}
  {
    assert xs == [xs[0]] + xs[1..];
  }

  lemma {:induction false} StartsAfter(xs: seq<Extent>, x: Extent, lo: int)
    requires TidyFrom(xs, lo) && x in xs
    ensures lo <= x.off && x.len > 0
  {
    if x == xs[0] {
    } else {
      assert x in xs[1..];
      StartsAfter(xs[1..], x, xs[0].off + xs[0].len);
    }
  }

  lemma SameHead(xs: seq<Extent>, ys: seq<Extent>, lo: int)
    requires xs != [] && ys != []
    requires TidyFrom(xs, lo) && SortedByOffset(ys) && multiset(xs) == multiset(ys)
    ensures xs[0] == ys[0]
  {
    assert xs[0] in multiset(ys) && ys[0] in multiset(xs);
    var i :| 0 <= i < |ys| && ys[i] == xs[0];
    assert ys[0].off <= xs[0].off;
    if ys[0] != xs[0] {
      assert ys[0] in xs[1..];
      StartsAfter(xs[1..], ys[0], xs[0].off + xs[0].len);
      assert false;
    }
  }
}
