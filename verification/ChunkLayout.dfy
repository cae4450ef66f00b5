/**
 An append-only serializer: each chunk of bytes goes to the next offset that is a multiple of its alignment. The
 offsets depend on the sizes and alignments only, so a chunk can later be replaced by another of the same size
 without moving anything else.
 */
module ChunkLayout {
  import opened ByteCodec
  import opened Division

  datatype Chunk = Chunk(align: nat, bytes: seq<Byte>)

  predicate Aligned(cs: seq<Chunk>) {
    forall i :: 0 <= i < |cs| ==> cs[i].align >= 1
  }

  function AlignTo(x: nat, m: nat): nat
    requires m >= 1
  {
    (x + m - 1) / m * m
  }

  /** The least multiple of the alignment that is not below `x`. */
  lemma AlignToSpec(x: nat, m: nat)
    requires m >= 1
    ensures x <= AlignTo(x, m) < x + m && AlignTo(x, m) % m == 0
    ensures x % m == 0 ==> AlignTo(x, m) == x
  {
    var q := (x + m - 1) / m;
    assert (x + m - 1) == q * m + (x + m - 1) % m;
    MulMod(q, m);
    if x % m == 0 {
      var p := x / m;
      assert x == p * m;
      assert p * m <= q * m < p * m + m;
      assert q == p by { Between(p, q, m); }
    }
  }

  /** The zero bytes that take a buffer of `size` bytes to the next multiple of `align`. */
  function Padding(size: nat, align: nat): (s: seq<Byte>)
    requires align >= 1
    ensures size + |s| == AlignTo(size, align)
  {
    AlignToSpec(size, align);
    seq(AlignTo(size, align) - size, _ => 0)
  }

  /** The serialized bytes of the chunks. */
  function Lay(cs: seq<Chunk>): seq<Byte>
    requires Aligned(cs)
  {
    if cs == [] then []
    else
      var before := Lay(cs[..|cs| - 1]);
      Place(before, cs[|cs| - 1])
  }

  /** Appends one chunk behind the padding its alignment needs. */
  function Place(s: seq<Byte>, c: Chunk): seq<Byte>
    requires c.align >= 1
  {
    s + Padding(|s|, c.align) + c.bytes
  }

  /** Where chunk `k` starts. */
  function Offset(cs: seq<Chunk>, k: nat): nat
    requires Aligned(cs) && k < |cs|
  {
    AlignTo(|Lay(cs[..k])|, cs[k].align)
  }

  lemma LayAppend(cs: seq<Chunk>, c: Chunk)
    requires Aligned(cs) && c.align >= 1
    ensures Aligned(cs + [c]) && Lay(cs + [c]) == Place(Lay(cs), c)
  {
    assert (cs + [c])[..|cs|] == cs;
  }

  /** Appending chunks keeps the bytes already written: the old image is a prefix of the new one. */
  lemma {:induction false} LayKeepsPrefix(cs: seq<Chunk>, k: nat)
    requires Aligned(cs) && k <= |cs|
    ensures Aligned(cs[..k]) && Lay(cs[..k]) <= Lay(cs)
    decreases |cs|
  {
    if k == |cs| {
      assert cs[..k] == cs;
    } else {
      var shorter := cs[..|cs| - 1];
      LayKeepsPrefix(shorter, k);
      assert shorter[..k] == cs[..k];
    }
  }

  /** Every chunk is aligned, lies inside the image, and ends before the next one starts. */
  lemma {:induction false} ChunkBounds(cs: seq<Chunk>, k: nat)
    requires Aligned(cs) && k < |cs|
    ensures Offset(cs, k) % cs[k].align == 0
    ensures |Lay(cs[..k])| <= Offset(cs, k)
    ensures Offset(cs, k) + |cs[k].bytes| == |Lay(cs[..k + 1])| <= |Lay(cs)|
    ensures k + 1 < |cs| ==> Offset(cs, k) + |cs[k].bytes| <= Offset(cs, k + 1)
  {
    AlignToSpec(|Lay(cs[..k])|, cs[k].align);
    assert cs[..k + 1][..k] == cs[..k];
    assert Lay(cs[..k + 1]) == Place(Lay(cs[..k]), cs[k]);
    LayKeepsPrefix(cs, k + 1);
    if k + 1 < |cs| { AlignToSpec(|Lay(cs[..k + 1])|, cs[k + 1].align); }
  }

  /** Two chunks never overlap. */
  lemma {:induction false} ChunksDisjoint(cs: seq<Chunk>, j: nat, k: nat)
    requires Aligned(cs) && j < k < |cs|
    ensures Offset(cs, j) + |cs[j].bytes| <= Offset(cs, k)
    decreases k
  {
    ChunkBounds(cs, j);
    if j + 1 < k {
      ChunksDisjoint(cs, j, k - 1);
      ChunkBounds(cs, k - 1);
    }
  }

  /** The image around chunk `k`: what precedes it and what follows it. */
  function Before(cs: seq<Chunk>, k: nat): (s: seq<Byte>)
    requires Aligned(cs) && k < |cs|
    ensures |s| == Offset(cs, k)
  {
    Lay(cs[..k]) + Padding(|Lay(cs[..k])|, cs[k].align)
  }

  function After(cs: seq<Chunk>, k: nat): seq<Byte>
    requires Aligned(cs) && k < |cs|
    decreases |cs|
  {
    var shorter, last := cs[..|cs| - 1], cs[|cs| - 1];
    if k == |shorter| then [] else After(shorter, k) + Padding(|Lay(shorter)|, last.align) + last.bytes
  }

  /** The image is what precedes chunk `k`, its bytes, and what follows. */
  lemma {:induction false} SplitAt(cs: seq<Chunk>, k: nat)
    requires Aligned(cs) && k < |cs|
    ensures Lay(cs) == Before(cs, k) + cs[k].bytes + After(cs, k)
    decreases |cs|
  {
    var shorter, last := cs[..|cs| - 1], cs[|cs| - 1];
    if k < |shorter| {
      assert shorter[..k] == cs[..k];
      SplitAt(shorter, k);
      assert Lay(cs) == Lay(shorter) + Padding(|Lay(shorter)|, last.align) + last.bytes;
      assert Lay(cs) == Before(cs, k) + cs[k].bytes
                        + (After(shorter, k) + Padding(|Lay(shorter)|, last.align) + last.bytes);
    } else {
      assert Lay(cs) == Before(cs, k) + cs[k].bytes + [];
    }
  }

  /** The bytes at a chunk's offset are the chunk. */
  lemma ReadChunk(cs: seq<Chunk>, k: nat)
    requires Aligned(cs) && k < |cs|
    ensures Offset(cs, k) + |cs[k].bytes| <= |Lay(cs)|
    ensures Lay(cs)[Offset(cs, k)..Offset(cs, k) + |cs[k].bytes|] == cs[k].bytes
  {
    SplitAt(cs, k);
    SliceMiddle(Before(cs, k), cs[k].bytes, After(cs, k));
  }

  /** Reading a field of a chunk in the image. */
  lemma GetInChunk(cs: seq<Chunk>, k: nat, at: nat, w: nat)
    requires Aligned(cs) && k < |cs| && at + w <= |cs[k].bytes|
    ensures Offset(cs, k) + at + w <= |Lay(cs)|
    ensures Get(Lay(cs), Offset(cs, k) + at, w) == Get(cs[k].bytes, at, w)
  {
    hide Get, Lay;
    SplitAt(cs, k);
    GetOfMiddle(Before(cs, k), cs[k].bytes, After(cs, k), at, w);
  }

  // ------------------------------------------------------------------------------------------------
  // Layout from sizes and alignments alone
  // ------------------------------------------------------------------------------------------------

  datatype Span = Span(align: nat, size: nat)

  predicate AlignedSpans(spans: seq<Span>) {
    forall i :: 0 <= i < |spans| ==> spans[i].align >= 1
  }

  /** The size of the image of any chunks of these sizes. */
  function End(spans: seq<Span>): nat
    requires AlignedSpans(spans)
  {
    if spans == [] then 0
    else
      var last := spans[|spans| - 1];
      AlignTo(End(spans[..|spans| - 1]), last.align) + last.size
  }

  /** Where chunk `k` starts. */
  function Start(spans: seq<Span>, k: nat): nat
    requires AlignedSpans(spans) && k < |spans|
  {
    AlignTo(End(spans[..k]), spans[k].align)
  }

  /** Chunks of the given sizes and alignments. */
  predicate Fill(cs: seq<Chunk>, spans: seq<Span>) {
    |cs| == |spans| && forall i :: 0 <= i < |cs| ==> cs[i].align == spans[i].align && |cs[i].bytes| == spans[i].size
  }

  lemma {:induction false} FilledSize(cs: seq<Chunk>, spans: seq<Span>)
    requires AlignedSpans(spans) && Fill(cs, spans)
    ensures Aligned(cs) && |Lay(cs)| == End(spans)
    decreases |cs|
  {
    if cs != [] { FilledSize(cs[..|cs| - 1], spans[..|spans| - 1]); }
  }

  /** The offset of a chunk depends on sizes and alignments only. */
  lemma FilledOffset(cs: seq<Chunk>, spans: seq<Span>, k: nat)
    requires AlignedSpans(spans) && Fill(cs, spans) && k < |cs|
    ensures Aligned(cs) && Offset(cs, k) == Start(spans, k)
  {
    FilledSize(cs[..k], spans[..k]);
  }

  /** Two lists of chunks that agree in sizes and alignments. */
  predicate SameShape(cs: seq<Chunk>, ds: seq<Chunk>) {
    |cs| == |ds| && forall i :: 0 <= i < |cs| ==> cs[i].align == ds[i].align && |cs[i].bytes| == |ds[i].bytes|
  }

  lemma {:induction false} SameShapeSameSize(cs: seq<Chunk>, ds: seq<Chunk>)
    requires Aligned(cs) && SameShape(cs, ds)
    ensures Aligned(ds) && |Lay(cs)| == |Lay(ds)|
    decreases |cs|
  {
    if cs != [] { SameShapeSameSize(cs[..|cs| - 1], ds[..|ds| - 1]); }
  }

  /** The chunks with the bytes of chunk `k` replaced by as many others. */
  function Updated(cs: seq<Chunk>, k: nat, bytes: seq<Byte>): (ds: seq<Chunk>)
    requires Aligned(cs) && k < |cs| && |bytes| == |cs[k].bytes|
    ensures Aligned(ds) && SameShape(cs, ds) && |ds| == |cs|
  {
    cs[k := Chunk(cs[k].align, bytes)]
  }

  /** Replacing a chunk moves nothing. */
  lemma UpdatedLayout(cs: seq<Chunk>, k: nat, bytes: seq<Byte>, j: nat)
    requires Aligned(cs) && k < |cs| && |bytes| == |cs[k].bytes| && j < |cs|
    ensures Offset(Updated(cs, k, bytes), j) == Offset(cs, j)
    ensures |Lay(Updated(cs, k, bytes))| == |Lay(cs)|
  {
    SameShapeSameSize(cs, Updated(cs, k, bytes));
    SameShapeSameSize(cs[..j], Updated(cs, k, bytes)[..j]);
  }

  lemma BeforeUnchanged(cs: seq<Chunk>, k: nat, bytes: seq<Byte>)
    requires Aligned(cs) && k < |cs| && |bytes| == |cs[k].bytes|
    ensures Before(Updated(cs, k, bytes), k) == Before(cs, k)
  {
    assert Updated(cs, k, bytes)[..k] == cs[..k];
  }

  lemma {:induction false} AfterUnchanged(cs: seq<Chunk>, k: nat, bytes: seq<Byte>)
    requires Aligned(cs) && k < |cs| && |bytes| == |cs[k].bytes|
    ensures After(Updated(cs, k, bytes), k) == After(cs, k)
    decreases |cs|
  {
    hide Lay, SameShape;
    var ds := Updated(cs, k, bytes);
    if k + 1 < |cs| {
      var shorter := cs[..|cs| - 1];
      assert ds[..|cs| - 1] == Updated(shorter, k, bytes);
      AfterUnchanged(shorter, k, bytes);
      SameShapeSameSize(shorter, ds[..|cs| - 1]);
    }
  }

  /** Overwriting a chunk's bytes in the image is the same as laying out the other chunk. */
  lemma PatchChunk(cs: seq<Chunk>, k: nat, bytes: seq<Byte>)
    requires Aligned(cs) && k < |cs| && |bytes| == |cs[k].bytes|
    ensures Offset(cs, k) + |bytes| <= |Lay(cs)|
    ensures Lay(Updated(cs, k, bytes)) == Patch(Lay(cs), Offset(cs, k), bytes)
  {
    BeforeUnchanged(cs, k, bytes);
    AfterUnchanged(cs, k, bytes);
    SplitAt(cs, k);
    SplitAt(Updated(cs, k, bytes), k);
    PatchMiddle(Before(cs, k), cs[k].bytes, After(cs, k), bytes);
  }

  /** Overwriting part of a chunk in the image is the same as laying out the chunk with that part overwritten. */
  lemma PatchInChunk(cs: seq<Chunk>, k: nat, at: nat, bytes: seq<Byte>)
    requires Aligned(cs) && k < |cs| && at + |bytes| <= |cs[k].bytes|
    ensures Offset(cs, k) + at + |bytes| <= |Lay(cs)|
    ensures Lay(Updated(cs, k, Patch(cs[k].bytes, at, bytes))) == Patch(Lay(cs), Offset(cs, k) + at, bytes)
  {
    hide Lay, Updated;
    var whole := cs[k].bytes;
    PatchChunk(cs, k, Patch(whole, at, bytes));
    SplitAt(cs, k);
    PatchPatched(Before(cs, k), whole, After(cs, k), at, bytes);
  }

  /** A chunk of no bytes and no alignment leaves no trace. */
  lemma EmptyChunk(s: seq<Byte>)
    ensures Place(s, Chunk(1, [])) == s
  {
  }

  /** Elements written one at a time form one array when their size is a multiple of the alignment. */
  lemma PlaceIsContiguous(s: seq<Byte>, align: nat, first: seq<Byte>, next: seq<Byte>)
    requires align >= 1 && |first| % align == 0
    ensures Place(Place(s, Chunk(align, first)), Chunk(align, next)) == Place(s, Chunk(align, first + next))
    ensures AlignTo(|Place(s, Chunk(align, first))|, align) == |Place(s, Chunk(align, first))|
  {
    var start := AlignTo(|s|, align);
    AlignToSpec(|s|, align);
    var end := start + |first|;
    SumMod(start, |first|, align);
    AlignToSpec(end, align);
  }
}
