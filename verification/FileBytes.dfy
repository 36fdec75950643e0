/**
 A file of the merged view as a byte sequence: extents over lower bytes over
 zeros. Sequential handle writes and truncates are compared with write() and
 ftruncate() of POSIX.1-2017 on a plain byte sequence.
 */
module FileBytes {
  import opened Machine
  import opened Paths
  import opened Extents
  import opened Overlay
  import opened Lookup
  import opened MergedView

  /** Blob contents by id; ids are content addresses, so a stored blob never changes. */
  type Store = map<BlobId, seq<Byte>>

  predicate HasCell(store: Store, c: Cell) {
    c.blob in store && 0 <= c.pos < |store[c.blob]|
  }

  /** Every stored cell lies inside its blob. */
  ghost predicate Backed(xs: seq<Extent>, store: Store) {
    forall p :: At(xs, p).Some? ==> HasCell(store, At(xs, p).value)
  }

  function BaseByte(base: seq<Byte>, p: int): Byte {
    if 0 <= p < |base| then base[p] else 0
  }

  /** The covering extent's byte, else the lower byte, else zero. */
  function ByteAt(xs: seq<Extent>, store: Store, base: seq<Byte>, p: int): Byte {
    match At(xs, p)
    case Some(c) => if HasCell(store, c) then store[c.blob][c.pos] else 0
    case None => BaseByte(base, p)
  }

  function SizeOf(n: Node, base: seq<Byte>): int {
    if n.size >= 0 then n.size else Max(ExtentEnd(n.extents), |base|)
  }

  /** The logical contents of a file node whose holes read through to base. */
  function NodeBytes(n: Node, base: seq<Byte>, store: Store): seq<Byte> {
    if SizeOf(n, base) < 0 then []
    else seq(SizeOf(n, base), i => ByteAt(n.extents, store, base, i))
  }

  ghost predicate GoodFile(n: Node, base: seq<Byte>, store: Store) {
    && n.kind == File && SoundNode(n)
    && (n.fallthrough || base == [])
    && Backed(n.extents, store)
    && Within(n.extents, SizeOf(n, base)) && SizeOf(n, base) < TWO63 && |base| < TWO63
  }

  // ---------------------------------------------------------------- reference

  /** Overwrites [off, off+|data|), growing the file; a gap shows what lies beneath. */
  function Overwrite(f: seq<Byte>, base: seq<Byte>, off: nat, data: seq<Byte>): seq<Byte> {
    seq(Max(|f|, off + |data|), i requires 0 <= i < Max(|f|, off + |data|) =>
      if off <= i < off + |data| then data[i - off]
      else if i < |f| then f[i]
      else BaseByte(base, i))
  }

  function Resized(f: seq<Byte>, base: seq<Byte>, size: nat): seq<Byte> {
    seq(size, i requires 0 <= i < size => if i < |f| then f[i] else BaseByte(base, i))
  }

  /** write(): nothing for an empty buffer, else overwrite with a zero-filled gap. */
  function PosixWrite(f: seq<Byte>, off: nat, data: seq<Byte>): seq<Byte> {
    if data == [] then f else Overwrite(f, [], off, data)
  }

  /** ftruncate(): cut, or extend with zeros. */
  function PosixTruncate(f: seq<Byte>, size: nat): seq<Byte> {
    Resized(f, [], size)
  }

  /** No lower byte would show through between lo and hi. */
  predicate GapIsZero(base: seq<Byte>, lo: int, hi: int) {
    forall i :: 0 <= i < |base| && lo <= i < hi ==> base[i] == 0
  }

  /** A handle write is write() exactly when it is not an empty write past the end and no lower byte resurfaces. */
  lemma WriteIsPosixIff(f: seq<Byte>, base: seq<Byte>, off: nat, data: seq<Byte>)
    ensures Overwrite(f, base, off, data) == PosixWrite(f, off, data) <==>
            (data == [] ==> off <= |f|) && GapIsZero(base, |f|, off)
  {
    var a, b := Overwrite(f, base, off, data), PosixWrite(f, off, data);
    if (data == [] ==> off <= |f|) && GapIsZero(base, |f|, off) {
      assert a == b;
    } else if data == [] && off > |f| {
      assert |a| != |b|;
    } else {
      var i :| 0 <= i < |base| && |f| <= i < off && base[i] != 0;
      assert a[i] != b[i];
    }
  }

  lemma TruncateIsPosixIff(f: seq<Byte>, base: seq<Byte>, size: nat)
    ensures Resized(f, base, size) == PosixTruncate(f, size) <==> GapIsZero(base, |f|, size)
  {
    if !GapIsZero(base, |f|, size) {
      var i :| 0 <= i < |base| && |f| <= i < size && base[i] != 0;
      assert Resized(f, base, size)[i] != PosixTruncate(f, size)[i];
    } else {
      assert Resized(f, base, size) == PosixTruncate(f, size);
    }
  }

  // -------------------------------------------------------------- node level

  /** Storing a content-addressed blob changes no byte of a backed file. */
  lemma StoreGrows(xs: seq<Extent>, store: Store, id: BlobId, data: seq<Byte>, p: int)
    requires Backed(xs, store) && (id in store ==> store[id] == data)
    ensures At(xs, p).Some? ==> HasCell(store[id := data], At(xs, p).value)
    ensures forall base :: ByteAt(xs, store[id := data], base, p) == ByteAt(xs, store, base, p)
  {
  }

  /** The write event an open handle emits for a node. */
  predicate HandleWrite(op: Op, n: Node, base: seq<Byte>, off: int, data: seq<Byte>, id: BlobId) {
    && op.Write? && op.offset == off && op.length == |data| && op.blob == id && op.blobOffset == 0
    && op.eof == (off + |data| >= SizeOf(n, base))
  }

  lemma WriteExtents(n: Node, base: seq<Byte>, op: Op, off: nat, data: seq<Byte>, id: BlobId, p: int)
    requires SoundNode(n) && n.kind == File && Within(n.extents, SizeOf(n, base))
    requires off + |data| < TWO63 && HandleWrite(op, n, base, off, data, id)
    ensures var e := Extent(off, |data|, id, 0);
            At(WriteInto(n, op).extents, p) == if e.Covers(p) then Some(e.CellAt(p)) else At(n.extents, p)
  {
    var e := Extent(off, |data|, id, 0);
    var end := off + |data|;
    if |data| > 0 { InsertMeaning(n.extents, e); }
    var xs := if |data| > 0 then Insert(n.extents, e) else n.extents;
    assert At(xs, p) == if e.Covers(p) then Some(e.CellAt(p)) else At(n.extents, p);
    if op.eof {
      ClipMeaning(xs, end);
      assert At(n.extents, p).Some? ==> p < SizeOf(n, base) <= end;
    }
  }

  lemma WriteSize(n: Node, base: seq<Byte>, store: Store, op: Op, off: nat, data: seq<Byte>, id: BlobId)
    requires GoodFile(n, base, store)
    requires off + |data| < TWO63 && HandleWrite(op, n, base, off, data, id)
    ensures SizeOf(WriteInto(n, op), base) == Max(SizeOf(n, base), off + |data|)
    ensures Within(WriteInto(n, op).extents, SizeOf(WriteInto(n, op), base))
    ensures SoundNode(WriteInto(n, op))
    ensures WriteInto(n, op).kind == n.kind && WriteInto(n, op).fallthrough == n.fallthrough
  {
    var n' := WriteInto(n, op);
    var end := off + |data|;
    WriteKeepsSoundNode(n, op);
    forall p | At(n'.extents, p).Some? ensures p < Max(SizeOf(n, base), end) {
      WriteExtents(n, base, op, off, data, id, p);
    }
    ExtentEndBounds(n.extents, 0);
    ExtentEndBounds(n'.extents, 0);
    if n'.size < 0 {
      DerivedSizeKept(n, base, op, off, data, id);
    }
  }

  /** An unknown size stays derived, and a write below it does not move it. */
  lemma DerivedSizeKept(n: Node, base: seq<Byte>, op: Op, off: nat, data: seq<Byte>, id: BlobId)
    requires SoundNode(n) && n.kind == File && Within(n.extents, SizeOf(n, base)) && SizeOf(n, base) < TWO63
    requires off + |data| < TWO63 && HandleWrite(op, n, base, off, data, id)
    requires WriteInto(n, op).size < 0 && SoundNode(WriteInto(n, op))
    ensures SizeOf(WriteInto(n, op), base) == SizeOf(n, base)
  {
    var xs := WriteInto(n, op).extents;
    var last, last' := ExtentEnd(n.extents) - 1, ExtentEnd(xs) - 1;
    ExtentEndBounds(n.extents, 0);
    ExtentEndBounds(xs, 0);
    WriteExtents(n, base, op, off, data, id, last);
    WriteExtents(n, base, op, off, data, id, last');
    assert n.size == -1 && !op.eof;
    if n.extents != [] { assert At(xs, last).Some?; }
    if xs != [] { assert At(xs, last').Some?; }
  }

  /** One handle write on a node is one overwrite of its bytes. */
  lemma NodeWrite(n: Node, base: seq<Byte>, store: Store, op: Op, off: nat, data: seq<Byte>, id: BlobId)
    requires GoodFile(n, base, store) && (id in store ==> store[id] == data)
    requires off + |data| < TWO63 && HandleWrite(op, n, base, off, data, id)
    ensures GoodFile(WriteInto(n, op), base, store[id := data])
    ensures NodeBytes(WriteInto(n, op), base, store[id := data]) ==
            Overwrite(NodeBytes(n, base, store), base, off, data)
  {
    hide WriteInto, Canonical, TidyFrom, Tight, ExtentEnd;
    var n', store' := WriteInto(n, op), store[id := data];
    var f, g := NodeBytes(n, base, store), Overwrite(NodeBytes(n, base, store), base, off, data);
    WriteSize(n, base, store, op, off, data, id);
    forall p
      ensures At(n'.extents, p).Some? ==> HasCell(store', At(n'.extents, p).value)
      ensures 0 <= p < |g| ==> ByteAt(n'.extents, store', base, p) == g[p]
    {
      WriteExtents(n, base, op, off, data, id, p);
      StoreGrows(n.extents, store, id, data, p);
    }
    assert NodeBytes(n', base, store') == g;
  }

  /** One truncate on a node is one resize of its bytes. */
  lemma NodeTruncate(n: Node, base: seq<Byte>, store: Store, size: nat)
    requires GoodFile(n, base, store) && size < TWO63
    ensures GoodFile(Resize(n, size), base, store)
    ensures NodeBytes(Resize(n, size), base, store) == Resized(NodeBytes(n, base, store), base, size)
  {
    var n' := Resize(n, size);
    var f, g := NodeBytes(n, base, store), Resized(NodeBytes(n, base, store), base, size);
    ClipMeaning(n.extents, size);
    ResizeSound(n, size);
    forall p | 0 <= p < size ensures ByteAt(n'.extents, store, base, p) == g[p] {
      if p >= |f| { assert At(n.extents, p).None?; }
    }
    assert NodeBytes(n', base, store) == g;
  }
}
