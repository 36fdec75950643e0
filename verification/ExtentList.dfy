/** The loops that rebuild a file's extent list, proved against the functions of `Extents`. */
module ExtentList {
  import opened Machine
  import opened Extents

  lemma MergeStep(kept: seq<Extent>, last: Extent, rest: seq<Extent>)
    requires rest != []
    ensures kept + Merge(last, rest) ==
            if Adjacent(last, rest[0]) then kept + Merge(Grown(last, rest[0]), rest[1..])
            else (kept + [last]) + Merge(rest[0], rest[1..])
  {
    if !Adjacent(last, rest[0]) { Regroup(kept, [last], Merge(rest[0], rest[1..])); }
  }

  function Grown(last: Extent, x: Extent): Extent {
    last.(len := Uint64(last.len + x.len))
  }

  /** Compacts in place: kept extents are written to the front of the array still being read. */
  method CoalesceInPlace(a: array<Extent>) returns (k: nat)
    modifies a
    ensures k <= a.Length && a[..k] == Coalesce(old(a[..]))
  {
    ghost var was := a[..];
    if a.Length < 2 {
      k := a.Length;
      return;
    }
    k := 1;
    var i := 1;
    assert a[..0] + Merge(a[0], a[1..]) == Merge(a[0], a[1..]);
    while i < a.Length
      invariant 1 <= k <= i <= a.Length
      invariant a[i..] == was[i..]
      invariant a[..k - 1] + Merge(a[k - 1], was[i..]) == Coalesce(was)
    {
      hide Merge, Adjacent, Grown, Coalesce;
      var x := a[i];
      assert x == a[i..][0] == was[i];
      assert was[i..][0] == x && was[i..][1..] == was[i + 1..];
      MergeStep(a[..k - 1], a[k - 1], was[i..]);
      assert a[i + 1..] == was[i + 1..];
      if Adjacent(a[k - 1], x) {
        a[k - 1] := Grown(a[k - 1], x);
      } else {
        assert a[..k] == a[..k - 1] + [a[k - 1]];
        a[k] := x;
        k := k + 1;
      }
      i := i + 1;
    }
    assert a[..k] == a[..k - 1] + [a[k - 1]];
  }

  /** The parts of the list outside e. */
  method CutAround(xs: seq<Extent>, e: Extent) returns (out: seq<Extent>)
    ensures out == Split(xs, e)
  {
    hide Pieces;
    out := [];
    for i := 0 to |xs|
      invariant out + Split(xs[i..], e) == Split(xs, e)
    {
      var kept := CutOne(xs[i], e);
      SplitFirst(xs, i, e);
      Regroup(out, kept, Split(xs[i + 1..], e));
      out := out + kept;
    }
  }

  method CutOne(x: Extent, e: Extent) returns (kept: seq<Extent>)
    ensures kept == Pieces(x, e)
  {
    if !Overlaps(x, e.off, e.End()) {
      return [x];
    }
    kept := [];
    if x.off < e.off {
      kept := kept + [Extent(x.off, Uint64(e.off - x.off), x.blob, x.boff)];
    }
    if x.End() > e.End() {
      kept := kept + [Extent(e.End(), Uint64(x.End() - e.End()), x.blob, Uint64(x.boff + (e.End() - x.off)))];
    }
  }

  lemma Regroup(a: seq<Extent>, b: seq<Extent>, c: seq<Extent>)
    ensures a + (b + c) == (a + b) + c
  {
  }

  lemma SplitFirst(xs: seq<Extent>, i: nat, e: Extent)
    requires i < |xs|
    ensures Split(xs[i..], e) == Pieces(xs[i], e) + Split(xs[i + 1..], e)
  {
    assert xs[i..][1..] == xs[i + 1..];
  }

  /** A new write wins over whatever the list held in its range. */
  method InsertExtent(xs: seq<Extent>, e: Extent) returns (r: seq<Extent>)
    ensures r == Insert(xs, e)
  {
    if e.len == 0 {
      return xs;
    }
    var out := CutAround(xs, e);
    var sorted := Sort(out + [e]);
    var a := new Extent[|sorted|](j requires 0 <= j < |sorted| => sorted[j]);
    assert a[..] == sorted;
    var k := CoalesceInPlace(a);
    r := a[..k];
  }

  method ClipExtents(xs: seq<Extent>, end: int) returns (r: seq<Extent>)
    ensures r == Clip(xs, end)
  {
    r := [];
    var i := 0;
    while i < |xs|
      invariant 0 <= i <= |xs|
      invariant r + Clip(xs[i..], end) == Clip(xs, end)
    {
      var x := xs[i];
      assert xs[i..][0] == x && xs[i..][1..] == xs[i + 1..];
      if x.off < end {
        if x.End() > end {
          x := x.(len := Uint64(end - x.off));
        }
        r := r + [x];
      }
      i := i + 1;
    }
  }

  lemma {:induction false} ExtentEndNatural(xs: seq<Extent>)
    ensures 0 <= ExtentEnd(xs)
  {
    if xs == [] {
    } else {
      ExtentEndNatural(xs[1..]);
    }
  }

  /** The end of the furthest extent, at least 0. */
  method FurthestEnd(xs: seq<Extent>) returns (end: int)
    ensures end == ExtentEnd(xs)
    ensures Tidy(xs) ==> Within(xs, end) && (xs != [] ==> At(xs, end - 1).Some?)
  {
    end := 0;
    assert xs[0..] == xs;
    ExtentEndNatural(xs);
    for i := 0 to |xs|
      invariant 0 <= end && Max(end, ExtentEnd(xs[i..])) == ExtentEnd(xs)
    {
      assert xs[i..][1..] == xs[i + 1..];
      if xs[i].End() > end {
        end := xs[i].End();
      }
    }
    if Tidy(xs) { ExtentEndBounds(xs, 0); }
  }
}
