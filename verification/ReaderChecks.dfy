/** What the reader checks and changes in any buffer, image or not. */
module ReaderChecks {
  import opened ByteCodec
  import opened FieldOffsets
  import opened RecordArrays
  import opened MetadataFormat
  import opened MetadataRelocation
  import opened MetadataReader

  /** Decoding a field gives the value that its bytes say. */
  lemma GetIs(s: seq<Byte>, at: nat, w: nat, v: nat)
    requires Value(s, at, w, v) && v < Pow256(w)
    ensures Get(s, at, w) == v
  {
    hide LE, Get;
    forall k | 0 <= k < w ensures s[at + k] == LE(v, w)[k] { LEAt(v, w, k); }
    assert s[at..at + w] == LE(v, w);
    GetOfLE(s, at, v, w);
  }

  lemma PatchIs(s: seq<Byte>, at: nat, v: nat, w: nat)
    requires at + w <= |s|
    ensures var r := Patch(s, at, LE(v, w));
            Value(r, at, w, v) && forall k :: 0 <= k < |s| && !(at <= k < at + w) ==> r[k] == s[k]
  {
    hide LE;
    var r := Patch(s, at, LE(v, w));
    forall k | 0 <= k < w ensures r[at + k] == v / Pow256(k) % 256 { LEAt(v, w, k); }
  }

  /**
   One fix-up in any buffer: it fails exactly when the slot or the offset in it lies outside of the buffer; otherwise
   the slot holds the address of the offset, and no other byte changes. An offset that equals the size is let through.
   */
  lemma RelocateIs(s: seq<Byte>, at: nat, base: nat, offset: U64)
    ensures at + 8 > |s| ==> Relocate(s, at, base).None?
    ensures Value(s, at, 8, offset) ==>
      && (Relocate(s, at, base).Some? <==> offset <= |s|)
      && (offset <= |s| ==>
            && Value(Relocate(s, at, base).value, at, 8, (base + offset) % TWO64)
            && forall k :: 0 <= k < |s| && !(at <= k < at + 8) ==> Relocate(s, at, base).value[k] == s[k])
  {
    hide LE, Get, Value, Patch;
    if Value(s, at, 8, offset) {
      Pow256Values();
      Fits(s, at, 8, offset);
      GetIs(s, at, 8, offset);
      PatchIs(s, at, (base + offset) % TWO64, 8);
    }
  }

  lemma Fits(s: seq<Byte>, at: nat, w: nat, v: nat)
    requires Value(s, at, w, v)
    ensures at + w <= |s|
  {
  }

  lemma TwoBytes(s: seq<Byte>)
    requires |s| >= 2
    ensures Next2(s).0 as int == (s[0] as int) + 256 * (s[1] as int)
  {
    assert FromLE(s[0..2]) == (s[0] as int) + 256 * FromLE(s[0..2][1..]);
    assert FromLE(s[0..2][1..]) == (s[1] as int) + 256 * FromLE([]);
  }

  lemma VersionOf(s: seq<Byte>)
    requires |s| >= HEADER_SIZE
    ensures DecHeader(s).versionMajor == Next2(s).0 && DecHeader(s).versionMinor == Next2(Next2(s).1).0
    ensures Next2(s).1 == s[2..]
  {
    hide Get, ReadAll;
  }

  /** The reader accepts version 1.0 and no other. */
  lemma VersionIs(s: seq<Byte>, base: nat)
    requires |s| >= 160
    ensures ReadMetadata(s, base).VersionMismatch? <==> !(s[0] == 1 && s[1] == 0 && s[2] == 0 && s[3] == 0)
  {
    hide RelocateAll, DecHeader, Next2;
    var h := s[..HEADER_SIZE];
    VersionOf(h);
    TwoBytes(h);
    TwoBytes(h[2..]);
  }
}
