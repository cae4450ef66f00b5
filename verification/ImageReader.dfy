/** The reader as it runs: it overwrites the caller's buffer in place, loop by loop. */
module ImageReader {
  import opened Wrappers
  import opened ByteCodec
  import opened MetadataFormat
  import opened MetadataRelocation
  import opened MetadataReader

  /** Overwrites the offset at `at` by the address it denotes. */
  method RelocateAt(buf: array<Byte>, at: nat, base: nat) returns (ok: bool)
    modifies buf
    ensures ok == Relocate(old(buf[..]), at, base).Some?
    ensures ok ==> buf[..] == Relocate(old(buf[..]), at, base).value
  {
    hide Get, LE;
    if at + 8 > buf.Length { return false; }
    var offset := Get(buf[..], at, 8);
    if offset > buf.Length { return false; }
    var bytes := LE((base + offset) % TWO64, 8);
    ghost var was := buf[..];
    forall k | 0 <= k < 8 { buf[at + k] := bytes[k]; }
    assert buf[..] == Patch(was, at, bytes);
    return true;
  }

  method RelocateRequestLoop(buf: array<Byte>, base: nat) returns (ok: bool)
    modifies buf
    ensures ok == RelocateRequests(old(buf[..]), base, 0).Some?
    ensures ok ==> buf[..] == RelocateRequests(old(buf[..]), base, 0).value
  {
    hide Relocate, RequestCount, RequestArray;
    var i := 0;
    while i < RequestCount(buf[..])
      invariant RelocateRequests(buf[..], base, i) == RelocateRequests(old(buf[..]), base, 0)
      decreases 0x1_0000 - i
    {
      ok := RelocateAt(buf, RequestArray(buf[..], base) + i * 48, base);
      if !ok { return; }
      ok := RelocateAt(buf, RequestArray(buf[..], base) + i * 48 + 8, base);
      if !ok { return; }
      i := i + 1;
    }
    return true;
  }

  method RelocateTableLoop(buf: array<Byte>, base: nat, tables: nat, numCores: nat) returns (ok: bool)
    modifies buf
    ensures ok == RelocateTables(old(buf[..]), base, tables, numCores, 0).Some?
    ensures ok ==> buf[..] == RelocateTables(old(buf[..]), base, tables, numCores, 0).value
  {
    hide Relocate;
    var core := 0;
    while core < numCores
      invariant RelocateTables(buf[..], base, tables, numCores, core)
                == RelocateTables(old(buf[..]), base, tables, numCores, 0)
    {
      ok := RelocateAt(buf, tables + core * 16, base);
      if !ok { return; }
      core := core + 1;
    }
    return true;
  }

  method RelocateFrontPointers(buf: array<Byte>, base: nat) returns (ok: bool)
    modifies buf
    ensures ok == RelocateFront(old(buf[..]), base).Some?
    ensures ok ==> buf[..] == RelocateFront(old(buf[..]), base).value
  {
    hide Relocate;
    ok := RelocateAt(buf, 8, base);
    if ok { ok := RelocateAt(buf, 16, base); }
    if ok { ok := RelocateAt(buf, 24, base); }
    if ok { ok := RelocateAt(buf, 32, base); }
  }

  method RelocateBackPointers(buf: array<Byte>, base: nat) returns (ok: bool)
    modifies buf
    ensures ok == RelocateBack(old(buf[..]), base).Some?
    ensures ok ==> buf[..] == RelocateBack(old(buf[..]), base).value
  {
    hide Relocate, HostTable;
    ok := RelocateAt(buf, 48, base);
    if ok { ok := RelocateAt(buf, HostTable(buf[..], base), base); }
    if ok { ok := RelocateAt(buf, 56, base); }
    if ok { ok := RelocateAt(buf, 64, base); }
  }

  method RelocateTablePointers(buf: array<Byte>, base: nat) returns (ok: bool)
    modifies buf
    ensures ok == RelocateMiddle(old(buf[..]), base).Some?
    ensures ok ==> buf[..] == RelocateMiddle(old(buf[..]), base).value
  {
    hide Relocate, TableArray, CoreCount, RelocateTables;
    ok := RelocateAt(buf, 40, base);
    if ok { ok := RelocateTableLoop(buf, base, TableArray(buf[..], base), CoreCount(buf[..])); }
  }

  /** Reads the image in the buffer: on success the buffer holds the relocated image, on a mismatch it is untouched. */
  method Read(buf: array<Byte>, base: nat) returns (r: ReadResult)
    requires buf.Length >= HEADER_SIZE
    modifies buf
    ensures r == ReadMetadata(old(buf[..]), base)
    ensures r.Ready? ==> buf[..] == r.memory
    ensures r.VersionMismatch? ==> buf[..] == old(buf[..])
  {
    hide *;
    ghost var was := buf[..];
    if !VersionMatches(buf[..]) {
      Outcome(was, base);
      return VersionMismatch;
    }
    var ok := RelocateFrontPointers(buf, base);
    if ok { ok := RelocateRequestLoop(buf, base); }
    if ok { ok := RelocateTablePointers(buf, base); }
    if ok { ok := RelocateBackPointers(buf, base); }
    Outcome(was, base);
    return if ok then Ready(buf[..]) else OutOfRange;
  }

  /** The reader's result by its four stages. */
  lemma Outcome(s: seq<Byte>, base: nat)
    requires |s| >= HEADER_SIZE
    ensures !VersionMatches(s) ==> ReadMetadata(s, base) == VersionMismatch
    ensures VersionMatches(s) ==>
      ReadMetadata(s, base) == if RelocateAll(s, base).None? then OutOfRange else Ready(RelocateAll(s, base).value)
    ensures RelocateAll(s, base) ==
      match RelocateFront(s, base) case None => None case Some(s1) =>
      match RelocateRequests(s1, base, 0) case None => None case Some(s2) =>
      match RelocateMiddle(s2, base) case None => None case Some(s3) =>
      RelocateBack(s3, base)
  {
    hide VersionMatches, RelocateFront, RelocateRequests, RelocateMiddle, RelocateBack;
  }
}
