/**
 The binary metadata writer: the builders collect the content, `Finalize` serializes it region by region behind a
 provisional header and patches the header last.
 */
module MetadataWriter {
  import opened ByteCodec
  import opened ChunkLayout
  import opened MetadataFormat
  import opened MetadataImage

  // ------------------------------------------------------------------------------------------------
  // The image while it is written
  // ------------------------------------------------------------------------------------------------

  /** The chunks of the image with a provisional header. */
  function Unpatched(c: Content, h0: Header): (cs: seq<Chunk>)
    ensures |cs| == Total(c) && Aligned(cs)
  {
    HeaderChunk(c);
    Updated(Chunks(c, 0, 0), 0, EncHeader(h0))
  }

  lemma HeaderChunk(c: Content)
    ensures Chunks(c, 0, 0)[0] == Chunk(8, EncHeader(HeaderOf(c, 0, 0)))
  {
    RegionLayout(c, 0, 0, HeaderRegion);
    hide EncHeader, HeaderOf;
  }

  /** The buffer when the first `k` regions are written. */
  function Written(c: Content, h0: Header, k: nat): seq<Byte>
    requires k <= Total(c)
  {
    hide Unpatched, Total, Lay;
    Lay(Unpatched(c, h0)[..k])
  }

  lemma UnpatchedLayout(c: Content, h0: Header, r: Region)
    requires Has(c, r) && r != HeaderRegion
    ensures 1 <= IndexOf(c, r) < Total(c)
    ensures Unpatched(c, h0)[IndexOf(c, r)] == ChunkOf(c, 0, 0, r)
    ensures Offset(Unpatched(c, h0), IndexOf(c, r)) == StartOf(c, r)
    ensures |Lay(Unpatched(c, h0))| == ImageSize(c)
  {
    hide Lay, Chunks, EncHeader, HeaderOf, StartOf, ImageSize, Offset, ChunkOf;
    RegionAt(c, r);
    RegionLayout(c, 0, 0, r);
    HeaderChunk(c);
    UpdatedLayout(Chunks(c, 0, 0), 0, EncHeader(h0), IndexOf(c, r));
  }

  /** The provisional header is written first. */
  lemma FirstRegion(c: Content, h0: Header)
    ensures Place([], Chunk(8, EncHeader(h0))) == Written(c, h0, 1)
    ensures |Place([], Chunk(8, EncHeader(h0)))| == HEADER_SIZE
  {
    var cs := Unpatched(c, h0);
    ProvisionalHeader(c, h0);
    assert Written(c, h0, 1) == Lay(cs[..1]) by { hide Unpatched, Lay, EncHeader; }
    hide *;
    LayOne(Chunk(8, EncHeader(h0)));
    assert cs[..1] == [Chunk(8, EncHeader(h0))];
  }

  lemma LayOne(c: Chunk)
    requires c.align >= 1
    ensures Lay([c]) == Place([], c) && |Place([], c)| == |c.bytes|
  {
    assert [c][..0] == [];
    AlignToSpec(0, c.align);
  }

  /** Patching the header completes the image, and the bound asserted for the patch is met strictly. */
  lemma LastPatch(c: Content, h0: Header)
    ensures HEADER_SIZE < |Written(c, h0, Total(c))| == ImageSize(c)
    ensures Patch(Written(c, h0, Total(c)), 0, EncHeader(HeaderOf(c, 0, 0))) == Image(c, 0, 0)
  {
    var cs, h := Unpatched(c, h0), HeaderOf(c, 0, 0);
    UnpatchedLayout(c, h0, NameRegion);
    NameBehindHeader(c);
    ProvisionalHeader(c, h0);
    WrittenAll(c, h0);
    hide *;
    HeaderIsFirst(cs);
    PatchChunk(cs, 0, EncHeader(h));
  }

  lemma WrittenAll(c: Content, h0: Header)
    ensures Written(c, h0, Total(c)) == Lay(Unpatched(c, h0)) && Image(c, 0, 0) == Lay(Chunks(c, 0, 0))
  {
    hide Unpatched, Lay, EncHeader, Chunks;
    assert Unpatched(c, h0)[..Total(c)] == Unpatched(c, h0);
  }

  lemma ProvisionalHeader(c: Content, h0: Header)
    ensures Unpatched(c, h0)[0] == Chunk(8, EncHeader(h0))
    ensures Updated(Unpatched(c, h0), 0, EncHeader(HeaderOf(c, 0, 0))) == Chunks(c, 0, 0)
  {
    HeaderChunk(c);
    UpdatedBack(Chunks(c, 0, 0), EncHeader(h0));
    hide EncHeader, Chunks, HeaderOf;
  }

  lemma UpdatedBack(cs: seq<Chunk>, bytes: seq<Byte>)
    requires Aligned(cs) && |cs| > 0 && |cs[0].bytes| == |bytes|
    ensures Updated(Updated(cs, 0, bytes), 0, cs[0].bytes) == cs
  {
  }

  lemma HeaderIsFirst(cs: seq<Chunk>)
    requires Aligned(cs) && |cs| > 0
    ensures Offset(cs, 0) == 0
  {
    assert cs[..0] == [];
    AlignToSpec(0, cs[0].align);
  }

  lemma NameBehindHeader(c: Content)
    ensures HEADER_SIZE < ImageSize(c)
  {
    hide Lay, Chunks, Image;
    LayoutIsSafe(c, 0, 0, HeaderRegion);
    LayoutIsSafe(c, 0, 0, NameRegion);
  }
}
