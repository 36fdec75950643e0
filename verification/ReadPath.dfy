/** Reading a window of a file: the overflow-safe window, the lower bytes, then the extents on top, in place. */
module ReadPath {
  import opened Machine
  import opened Paths
  import opened Extents
  import opened Overlay
  import opened MergedView
  import opened FileBytes
  import opened FileRuns

  const MAX_READ_SIZE: int := 0x4000_0000

  ghost predicate IsInt64(x: int) { -TWO63 <= x < TWO63 }

  /** How many bytes a read at off may serve; the window is exact although off + want may wrap. */
  function ReadWindow(off: int, want: int, size: int): (r: Result<int, Errno>)
    requires IsInt64(off) && IsInt64(want) && IsInt64(size)
    ensures r.Err? <==> off < 0 || want < 0 || size < 0 || Min(want, size - off) > 0x4000_0000
    ensures r.Ok? ==> r.value == Max(0, Min(want, size - off))
  {
    if off < 0 || want < 0 || size < 0 then Err(EIO)
    else if off >= size then Ok(0)
    else
      var end := Int64(off + want);
      var clamped := if end < off || end > size then size else end;
      if clamped - off > MAX_READ_SIZE then Err(EIO) else Ok(clamped - off)
  }

  /** The blob holds the whole range the extent names. */
  predicate ExtentBacked(x: Extent, store: Store) {
    x.blob in store && Uint64(x.boff + x.len) <= |store[x.blob]|
  }

  predicate Touches(x: Extent, off: int, end: int) {
    x.off < end && off < x.End()
  }

  /** An extent of the list that the window needs but the blobs cannot serve. */
  predicate Unserved(xs: seq<Extent>, store: Store, off: int, end: int) {
    exists i :: 0 <= i < |xs| && Touches(xs[i], off, end) && !ExtentBacked(xs[i], store)
  }

  lemma {:induction false} LaterExtents(xs: seq<Extent>, lo: int, i: nat)
    requires TidyFrom(xs, lo) && i < |xs|
    ensures lo <= xs[i].off && xs[i].Sane()
  {
    if i == 0 {
    } else {
      LaterExtents(xs[1..], xs[0].off + xs[0].len, i - 1);
    }
  }

  lemma {:induction false} AtElement(xs: seq<Extent>, lo: int, i: nat, p: int)
    requires TidyFrom(xs, lo) && i < |xs| && xs[i].Covers(p)
    ensures At(xs, p) == Some(xs[i].CellAt(p))
  {
    if i == 0 {
    } else {
      LaterExtents(xs[1..], xs[0].off + xs[0].len, i - 1);
      AtElement(xs[1..], xs[0].off + xs[0].len, i - 1, p);
    }
  }

  lemma {:induction false} OrderedElements(xs: seq<Extent>, lo: int, i: nat, j: nat)
    requires TidyFrom(xs, lo) && i < j < |xs|
    ensures xs[i].off + xs[i].len <= xs[j].off
  {
    if i > 0 {
      OrderedElements(xs[1..], xs[0].off + xs[0].len, i - 1, j - 1);
    } else {
      LaterExtents(xs[1..], xs[0].off + xs[0].len, j - 1);
    }
  }

  lemma BackedElements(xs: seq<Extent>, store: Store, off: int, end: int)
    requires Tidy(xs) && Backed(xs, store)
    ensures !Unserved(xs, store, off, end)
  {
    forall i | 0 <= i < |xs| ensures ExtentBacked(xs[i], store) {
      LaterExtents(xs, 0, i);
      var last := xs[i].off + xs[i].len - 1;
      AtElement(xs, 0, i, last);
      assert HasCell(store, At(xs, last).value);
    }
  }

  /** The byte at file offset p once the first k extents have been laid over a buffer. */
  function Laid(xs: seq<Extent>, store: Store, p: int, under: Byte): Byte {
    match At(xs, p)
    case Some(c) => if HasCell(store, c) then store[c.blob][c.pos] else 0
    case None => under
  }

  lemma AtSingle(x: Extent, p: int)
    ensures At([x], p) == if x.Covers(p) then Some(x.CellAt(p)) else None
  {
    AtCons(x, [], p);
    assert [x] + [] == [x];
  }

  lemma LaidStep(xs: seq<Extent>, k: nat, store: Store, p: int, under: Byte)
    requires k < |xs|
    ensures Laid(xs[..k + 1], store, p, under) ==
            if At(xs[..k], p).Some? then Laid(xs[..k], store, p, under) else Laid([xs[k]], store, p, under)
  {
    assert xs[..k + 1] == xs[..k] + [xs[k]];
    AtAppend(xs[..k], [xs[k]], p);
  }

  lemma {:induction false} AtPrefix(xs: seq<Extent>, k: nat, lo: int, p: int)
    requires TidyFrom(xs, lo) && k <= |xs|
    requires k < |xs| ==> p < xs[k].off
    ensures At(xs[..k], p) == At(xs, p)
  {
    if k == 0 {
      if xs != [] { AtBelow(xs, p, xs[0].off); }
    } else {
      assert xs[..k][1..] == xs[1..][..k - 1];
      AtPrefix(xs[1..], k - 1, xs[0].off + xs[0].len, p);
    }
  }

  lemma {:induction false} PrefixMisses(xs: seq<Extent>, k: nat, lo: int, p: int)
    requires TidyFrom(xs, lo) && k < |xs| && xs[k].off <= p
    ensures At(xs[..k], p).None?
  {
    if k == 0 {
    } else {
      assert xs[..k][1..] == xs[1..][..k - 1];
      OrderedElements(xs, lo, 0, k);
      PrefixMisses(xs[1..], k - 1, xs[0].off + xs[0].len, p);
    }
  }

  /** Copies one extent's bytes into the window; bytes outside the extent stay. */
  method CopyExtent(x: Extent, off: int, dst: array<Byte>, store: Store)
    requires x.Sane() && 0 <= off && off + dst.Length < TWO63
    requires Touches(x, off, off + dst.Length) && ExtentBacked(x, store)
    modifies dst
    ensures forall i :: 0 <= i < dst.Length ==> dst[i] == Laid([x], store, off + i, old(dst[i]))
  {
    var src := store[x.blob][x.boff..x.boff + x.len];
    var lo := if off > x.off then off - x.off else 0;
    var hi := Min(|src|, off + dst.Length - x.off);
    ghost var was := dst[..];
    forall j | lo <= j < hi {
      dst[x.off + j - off] := src[j];
    }
    forall i | 0 <= i < dst.Length ensures dst[i] == Laid([x], store, off + i, was[i]) {
      AtSingle(x, off + i);
      var j := off + i - x.off;
      if lo <= j < hi {
        assert dst[x.off + j - off] == src[j];
      }
    }
  }

  /** Lays the extents over the window in place; fails exactly when a needed blob range is missing. */
  method MergeExtents(xs: seq<Extent>, off: int, dst: array<Byte>, store: Store) returns (ok: bool)
    requires Tidy(xs) && 0 <= off && off + dst.Length < TWO63
    modifies dst
    ensures ok <==> !Unserved(xs, store, off, off + dst.Length)
    ensures ok ==> forall i :: 0 <= i < dst.Length ==> dst[i] == Laid(xs, store, off + i, old(dst[i]))
  {
    var end := off + dst.Length;
    ghost var was := dst[..];
    for k := 0 to |xs|
      invariant forall i :: 0 <= i < dst.Length ==> dst[i] == Laid(xs[..k], store, off + i, was[i])
      invariant forall i :: 0 <= i < k && Touches(xs[i], off, end) ==> ExtentBacked(xs[i], store)
    {
      var x := xs[k];
      ghost var now := dst[..];
      LaterExtents(xs, 0, k);
      forall i | 0 <= i < dst.Length
        ensures Laid(xs[..k + 1], store, off + i, was[i]) == Laid([x], store, off + i, now[i])
        ensures x.End() <= off ==> Laid([x], store, off + i, now[i]) == now[i]
      {
        LaidStep(xs, k, store, off + i, was[i]);
        AtSingle(x, off + i);
        if x.Covers(off + i) { PrefixMisses(xs, k, 0, off + i); }
      }
      if x.off >= end {
        forall i | 0 <= i < dst.Length ensures dst[i] == Laid(xs, store, off + i, was[i]) {
          AtPrefix(xs, k, 0, off + i);
        }
        forall i | k <= i < |xs| ensures !Touches(xs[i], off, end) {
          if k < i { OrderedElements(xs, 0, k, i); }
        }
        return true;
      }
      if x.End() > off {
        if !ExtentBacked(x, store) {
          return false;
        }
        CopyExtent(x, off, dst, store);
      }
    }
    assert xs[..|xs|] == xs;
    return true;
  }

  /** The bytes a resolved entry's holes read through to; None when the lower file cannot be read. */
  function HoleBytes(s: State, tree: Lower, rel: Path, e: Entry): Option<seq<Byte>> {
    if e.upper.Some? && !e.upper.value.fallthrough then Some([])
    else
      var src := if e.upper.Some? then FallthroughSource(rel, e.upper.value) else rel;
      match tree.read(LowerLocation(s, src))
      case Readable(d) => Some(d)
      case NoFile => Some([])
      case ReadError => None
  }

  /** A zeroed buffer, the hole bytes, then the extents. */
  method FillWindow(xs: seq<Extent>, holes: seq<Byte>, store: Store, off: int, n: nat) returns (r: Option<seq<Byte>>)
    requires Tidy(xs) && 0 <= off && off + n < TWO63
    ensures r.None? <==> Unserved(xs, store, off, off + n)
    ensures r.Some? ==> |r.value| == n && forall i :: 0 <= i < n ==> r.value[i] == ByteAt(xs, store, holes, off + i)
  {
    hide TidyFrom;
    var data := new Byte[n](i => 0);
    forall i | 0 <= i < n && off + i < |holes| {
      data[i] := holes[off + i];
    }
    assert forall i :: 0 <= i < n ==> data[i] == BaseByte(holes, off + i);
    var ok := MergeExtents(xs, off, data, store);
    r := if ok then Some(data[..]) else None;
  }

  /** The answer a plain byte sequence f would give: its slice, refused only for what no 1 GiB buffer can hold. */
  ghost predicate ReadsAs(f: seq<Byte>, off: int, want: int, r: Result<seq<Byte>, Errno>) {
    if off < 0 || want < 0 || Min(want, |f| - off) > 0x4000_0000 then r == Err(EIO)
    else r == Ok(if off < |f| then f[off..Min(off + want, |f|)] else [])
  }

  lemma FileFacts(s: State, tree: Lower, store: Store, rel: Path)
    requires RegularFile(s, tree, store, rel)
    ensures var e, f := Resolve(s, tree, rel), FileData(s, tree, store, rel);
            && e.Ok? && e.value.size == |f| < TWO63
            && HoleBytes(s, tree, rel, e.value) == Some(BaseOf(s, tree, rel))
            && forall i :: 0 <= i < |f| ==> f[i] == ByteAt(FileNode(s, rel).extents, store, BaseOf(s, tree, rel), i)
    ensures Backed(FileNode(s, rel).extents, store)
    ensures rel in s.nodes ==> s.nodes[rel].kind == File
  {
    ResolveFile(s, tree, store, rel);
    hide Canonical, TidyFrom, Tight, Resolve, ExtentEnd, At, LowerLocation;
  }

  /** A read of a regular file answers as its byte sequence would: exactly the window, or a refusal. */
  method HandleRead(s: State, tree: Lower, store: Store, rel: Path, off: int, want: int)
    returns (r: Result<seq<Byte>, Errno>)
    requires Sound(s) && IsInt64(off) && IsInt64(want)
    requires Resolve(s, tree, rel).Ok? ==> IsInt64(Resolve(s, tree, rel).value.size)
    ensures Resolve(s, tree, rel).Err? ==> r == Err(Resolve(s, tree, rel).error)
    ensures Resolve(s, tree, rel).Ok? && rel in s.nodes && s.nodes[rel].kind != File ==> r == Err(ENOENT)
    ensures Absent(s, tree, rel) && 0 <= off && 0 <= want ==> r == Ok([])
    ensures RegularFile(s, tree, store, rel) ==> ReadsAs(FileData(s, tree, store, rel), off, want, r)
  {
    hide RegularFile, FileData, BaseOf, TidyFrom, Tight, Resolve, HoleBytes, ByteAt;
    ghost var f := FileData(s, tree, store, rel);
    EntryNode(s, tree, rel);
    AbsentSize(s, tree, rel);
    if RegularFile(s, tree, store, rel) { FileFacts(s, tree, store, rel); }
    var resolved := Resolve(s, tree, rel);
    if resolved.Err? {
      return Err(resolved.error);
    }
    var e := resolved.value;
    if e.upper.Some? && e.upper.value.kind != File {
      return Err(ENOENT);
    }
    var window := ReadWindow(off, want, e.size);
    if window.Err? {
      return Err(window.error);
    }
    var n := window.value;
    if n == 0 {
      assert RegularFile(s, tree, store, rel) && off < |f| ==> f[off..off] == [];
      return Ok([]);
    }
    var holes := HoleBytes(s, tree, rel, e);
    if holes.None? {
      return Err(EIO);
    }
    var xs := if e.upper.Some? then e.upper.value.extents else [];
    if RegularFile(s, tree, store, rel) { BackedElements(xs, store, off, off + n); }
    var data := FillWindow(xs, holes.value, store, off, n);
    if data.None? {
      return Err(EIO);
    }
    r := Ok(data.value);
    if RegularFile(s, tree, store, rel) { assert data.value == f[off..off + n]; }
  }

  /** Whole-path theorem: run the operations on the mount, then read; a plain byte file would answer the same. */
  method ReadAfterRun(s: State, tree: Lower, store: Store, rel: Path, ops: seq<FileOp>, off: int, want: int)
    returns (r: Result<seq<Byte>, Errno>)
    requires RegularFile(s, tree, store, rel) && SaneRun(store, ops) && IsInt64(off) && IsInt64(want)
    requires TameRun(FileData(s, tree, store, rel), BaseOf(s, tree, rel), ops)
    ensures ReadsAs(PosixRun(FileData(s, tree, store, rel), ops), off, want, r)
  {
    hide RegularFile, FileData, BaseOf, RunOps, PosixRun, SaneRun, TameRun, ReadsAs, Sound, Resolve;
    TameRunIsPosix(s, tree, store, rel, ops);
    var t := RunOps(s, tree, rel, ops).value;
    ReadableFile(t, tree, StoreRun(store, ops), rel);
    r := HandleRead(t, tree, StoreRun(store, ops), rel, off, want);
  }

  lemma ReadableFile(s: State, tree: Lower, store: Store, rel: Path)
    requires RegularFile(s, tree, store, rel)
    ensures Sound(s) && (Resolve(s, tree, rel).Ok? ==> IsInt64(Resolve(s, tree, rel).value.size))
  {
    hide FileData, BaseOf, Resolve, Sound;
    FileFacts(s, tree, store, rel);
  }

  lemma AbsentSize(s: State, tree: Lower, rel: Path)
    ensures Absent(s, tree, rel) ==> Resolve(s, tree, rel).value.size == 0 && rel !in s.nodes
  {
  }

  lemma EntryNode(s: State, tree: Lower, rel: Path)
    requires Sound(s)
    ensures Resolve(s, tree, rel).Ok? ==>
      Resolve(s, tree, rel).value.upper == (if rel in s.nodes then Some(s.nodes[rel]) else None)
    ensures rel in s.nodes ==> Tidy(s.nodes[rel].extents)
    ensures Tidy([])
  {
  }
}
