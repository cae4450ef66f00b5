/**
 Building an inference handle: one loop steps pointers through the record allocation, opens a record, appends slice
 entries and closes it at the end of a group. What it allocated may be too little, and what fails is released.
 */
module InfHandle {
  import opened ByteCodec
  import opened DmaPipeline
  import opened InfGrouping
  import opened InfRecords

  /** What is built: the records by their offset in the allocation, and the execute entries. */
  datatype Handle = Handle(memory: map<nat, Record>, executes: seq<ExecuteEntry>, waitHandle: U32, bufDirs: seq<Dir>)

  /**
   How building ends: with a handle; with a null pointer after some complete records, whose handles were closed; or with
   a write outside of the allocation.
   */
  datatype Making = Made(handle: Handle) | Failed(records: nat, closed: seq<U32>) | OutOfBounds

  predicate Supported(b: Batch, i: nat)
    requires b.WellFormed() && i < |b.parts|
  {
    && (b.partial && i < |b.parts| - 1 ==> b.parts[i].bufIndex != b.parts[i + 1].bufIndex)
    && (b.parts[i].size != 0 ==> b.bufs[b.parts[i].bufIndex].heap)
  }

  /** Nothing stops the loop within the first `i` elements. */
  predicate Passes(b: Batch, kernel: Kernel, i: nat)
    requires b.WellFormed() && i <= |b.parts|
  {
    && (forall j :: 0 <= j < i ==> Supported(b, j))
    && forall k :: 0 <= k < |Closed(b.parts, i)| ==> kernel(k).Ready?
  }

  /** The handle to wait on: the record that the awaited element ends. */
  function WaitHandle(b: Batch, kernel: Kernel, waitIndex: int, i: nat): U32
    requires b.WellFormed() && i <= |b.parts|
  {
    if 0 <= waitIndex < i && EndsGroup(b.parts, waitIndex) then
      var k := |Closed(b.parts, waitIndex)|;
      if kernel(k).Ready? then kernel(k).handle else 0
    else 0
  }

  /** The direction kept for buffer `x`: that of the last element that ended a group of it, none if that has size 0. */
  function DirOf(b: Batch, x: nat, i: nat): Dir
    requires b.WellFormed() && i <= |b.parts|
  {
    if i == 0 then NoDir
    else if EndsGroup(b.parts, i - 1) && b.parts[i - 1].bufIndex == x then
      if b.parts[i - 1].size != 0 then b.dirs[i - 1] else NoDir
    else DirOf(b, x, i - 1)
  }

  /** The element that decided about a buffer is the last one that ended a group of it. */
  lemma {:induction false} DirOfIs(b: Batch, x: nat, i: nat) returns (j: int)
    requires b.WellFormed() && i <= |b.parts|
    ensures -1 <= j < i
    ensures forall k :: j < k < i ==> !(EndsGroup(b.parts, k) && b.parts[k].bufIndex == x)
    ensures j >= 0 ==> EndsGroup(b.parts, j) && b.parts[j].bufIndex == x
    ensures DirOf(b, x, i) == if j >= 0 && b.parts[j].size != 0 then b.dirs[j] else NoDir
  {
    if i == 0 {
      j := -1;
    } else if EndsGroup(b.parts, i - 1) && b.parts[i - 1].bufIndex == x {
      j := i - 1;
    } else {
      j := DirOfIs(b, x, i - 1);
    }
  }

  /** The directions kept for the buffers after `i` elements. */
  predicate DirsAre(b: Batch, bufDirs: seq<Dir>, i: nat)
    requires b.WellFormed() && i <= |b.parts|
  {
    |bufDirs| == |b.bufs| && forall x :: 0 <= x < |b.bufs| ==> bufDirs[x] == DirOf(b, x, i)
  }

  lemma NextDir(b: Batch, bufDirs: seq<Dir>, i: nat)
    requires b.WellFormed() && i < |b.parts| && DirsAre(b, bufDirs, i)
    ensures b.parts[i].bufIndex < |bufDirs|
    ensures var dir := if b.parts[i].size != 0 then b.dirs[i] else NoDir;
            DirsAre(b, if EndsGroup(b.parts, i) then bufDirs[b.parts[i].bufIndex := dir] else bufDirs, i + 1)
  {
  }

  /** The records and pointers after `i` elements. */
  predicate Progress(b: Batch, kernel: Kernel, i: nat, memory: map<nat, Record>, executes: seq<ExecuteEntry>,
                     createBO: nat, entries: seq<SliceEntry>)
    requires b.WellFormed() && i <= |b.parts|
  {
    var gs := Closed(b.parts, i);
    InPlace(b, kernel, gs, memory, executes) && |executes| == |gs| && createBO == Stepped(gs, |gs|)
    && entries == Entries(b, OpenStart(b.parts, i), i)
  }

  /** Fills the open record, which element `i` ends, and steps over it, unless the kernel's buffer object is no use. */
  method CloseRecord(b: Batch, kernel: Kernel, i: nat, memory: map<nat, Record>, executes: seq<ExecuteEntry>,
                     createBO: nat, entries: seq<SliceEntry>, ghost before: seq<SliceEntry>)
    returns (answer: Answer, memory': map<nat, Record>, executes': seq<ExecuteEntry>, createBO': nat)
    requires b.WellFormed() && i < |b.parts| && EndsGroup(b.parts, i)
    requires Progress(b, kernel, i, memory, executes, createBO, before) && entries == before + [EntryOf(b, i)]
    ensures answer == kernel(|Closed(b.parts, i)|)
    ensures answer.Ready? ==> Progress(b, kernel, i + 1, memory', executes', createBO', [])
  {
    answer, memory', executes', createBO' := kernel(|executes|), memory, executes, createBO;
    if !answer.Ready? { return; }
    hide InPlace, Stepped, RecordOf, EntryOf, Closed, OpenStart, Entries;
    NextEntry(b, OpenStart(b.parts, i), i);
    CloseGroup(b, kernel, i, memory, executes, answer.handle);
    var part := b.parts[i];
    var boSize := if part.size != 0 then b.bufs[part.bufIndex].size else 0;
    memory' := memory[createBO := Record(answer.handle, boSize, b.dirs[i], entries, true)];
    executes' := executes + [ExecuteEntry(answer.handle, b.dirs[i], 0)];
    createBO' := createBO + CREATE_BO_SIZE + ATTACH_SLICE_SIZE + SLICE_ENTRY_SIZE * |entries|;
  }

  /** The header that is marked first and all records fit what is allocated for them. */
  predicate Fits(b: Batch) { b.bufs != [] && Runs(b.parts, |b.parts|) <= |b.bufs| }

  /** The last element of the first record that is one too many. */
  function ExtraEnd(b: Batch): (i: nat)
    requires |Groups(b.parts)| > NumReqs(b.parts, |b.bufs|)
    ensures i < |b.parts|
  {
    GroupsPartition(b.parts);
    var g := Groups(b.parts)[NumReqs(b.parts, |b.bufs|)];
    g.start + g.count - 1
  }

  /**
   The loop writes outside of the allocation: at once when there is none, and otherwise at the end of the first record
   that is one too many. There the last element of all overruns by the offset in its slice entry, and any other by its
   execute entry, once the kernel has accepted the record.
   */
  predicate Overruns(b: Batch, kernel: Kernel)
    requires b.WellFormed()
  {
    || b.bufs == []
    || (|Groups(b.parts)| > NumReqs(b.parts, |b.bufs|)
        && var i := ExtraEnd(b);
           Passes(b, kernel, i) && Supported(b, i) && (i < |b.parts| - 1 ==> Passes(b, kernel, i + 1)))
  }

  /** Where the channel number of a record ends: it is written when the record is opened. */
  const CHANNEL_END := CREATE_BO_SIZE + 8

  /**
   What a failure at element `i` leaves behind: every complete record was released once, and of all buffer objects that
   the kernel created only one remains open, if any: that which could not be sliced or mapped.
   */
  predicate FailedAt(b: Batch, kernel: Kernel, i: nat, r: Making, created: seq<U32>)
    requires b.WellFormed() && i < |b.parts|
  {
    && r == Failed(|Closed(b.parts, i)|, Handles(kernel, |Closed(b.parts, i)|))
    && created == r.closed + Remaining(b, kernel, i)
  }

  /** The buffer object that a failure at element `i` leaves open. */
  function Remaining(b: Batch, kernel: Kernel, i: nat): seq<U32>
    requires b.WellFormed() && i < |b.parts|
  {
    var answer := kernel(|Closed(b.parts, i)|);
    if Supported(b, i) && EndsGroup(b.parts, i) && answer.Unusable? then [answer.handle] else []
  }

  /** Gives up at element `i`: the complete records are released. */
  method Release(b: Batch, kernel: Kernel, i: nat, memory: map<nat, Record>, executes: seq<ExecuteEntry>,
                 ghost createBO: nat, ghost entries: seq<SliceEntry>, ghost waitIndex: int, ghost waitHandle: U32,
                 ghost bufDirs: seq<Dir>, ghost known: seq<U32>, ghost created: seq<U32>)
    returns (r: Making)
    requires b.WellFormed() && i < |b.parts|
    requires Going(b, kernel, waitIndex, i, memory, executes, createBO, entries, waitHandle, bufDirs, known)
    requires !Supported(b, i) || (EndsGroup(b.parts, i) && !kernel(|Closed(b.parts, i)|).Ready?)
    requires created == known + Remaining(b, kernel, i)
    requires i == |b.parts| - 1 && Supported(b, i) ==> |Closed(b.parts, i)| < NumReqs(b.parts, |b.bufs|)
    ensures r.Failed? && Ends(b, kernel, waitIndex, r, created)
  {
    hide InPlace, Passes, Closed, OpenStart, DirsAre, Overruns, NumReqs, Handles, StopsAt, WaitHandle;
    ghost var gs := Closed(b.parts, i);
    StopsHere(b, kernel, i);
    InPlaceIsLaid(b, kernel, gs, memory, executes, |gs|);
    var closed, _ := FreeMemReq(memory, |executes|, gs);
    r := Failed(|executes|, closed);
    StopsFirst(b, kernel, i);
  }

  /** Does the entry that comes next in the open record end behind the allocation? */
  predicate EntryIsOutside(createBO: nat, count: nat, size: nat) {
    createBO + HEADERS + SLICE_ENTRY_SIZE * (count + 1) > size
  }

  /** Everything the loop keeps up to date after `i` elements. */
  predicate Going(b: Batch, kernel: Kernel, waitIndex: int, i: nat, memory: map<nat, Record>,
                  executes: seq<ExecuteEntry>, createBO: nat, entries: seq<SliceEntry>, waitHandle: U32,
                  bufDirs: seq<Dir>, created: seq<U32>)
    requires b.WellFormed()
  {
    && i <= |b.parts| && b.bufs != [] && |Closed(b.parts, i)| <= NumReqs(b.parts, |b.bufs|)
    && Passes(b, kernel, i) && Progress(b, kernel, i, memory, executes, createBO, entries)
    && waitHandle == WaitHandle(b, kernel, waitIndex, i) && DirsAre(b, bufDirs, i)
    && created == Handles(kernel, |Closed(b.parts, i)|)
  }

  /** How the loop ends, and what it leaves behind. */
  ghost predicate Ends(b: Batch, kernel: Kernel, waitIndex: int, r: Making, created: seq<U32>)
    requires b.WellFormed()
  {
    && (r.Made? <==> Passes(b, kernel, |b.parts|) && Fits(b))
    && (r.OutOfBounds? <==> Overruns(b, kernel))
    && (r.Made? ==>
          && InPlace(b, kernel, Groups(b.parts), r.handle.memory, r.handle.executes)
          && r.handle.waitHandle == WaitHandle(b, kernel, waitIndex, |b.parts|)
          && DirsAre(b, r.handle.bufDirs, |b.parts|) && created == Handles(kernel, |Groups(b.parts)|))
    && (r.Failed? ==> exists i :: StopsAt(b, kernel, i) && FailedAt(b, kernel, i, r, created))
  }

  /**
   The loop of `createInfHandle`. There is a handle exactly when every element is supported, the kernel's answer to
   every record is of use, and the records fit. Otherwise the complete records are released, or memory was overrun.
   */
  method CreateInfHandle(b: Batch, kernel: Kernel, waitIndex: int, numReqs: nat)
    returns (r: Making, created: seq<U32>)
    requires b.WellFormed() && numReqs == NumReqs(b.parts, |b.bufs|)
    ensures Ends(b, kernel, waitIndex, r, created)
  {
    var memory: map<nat, Record>, executes: seq<ExecuteEntry>, waitHandle: U32 := map[], [], 0;
    var bufDirs: seq<Dir> := seq(|b.bufs|, _ => NoDir);
    var createBO: nat, entries: seq<SliceEntry> := 0, [];
    var size := HEADERS * numReqs + SLICE_ENTRY_SIZE * |b.parts|;
    created := [];
    if CHANNEL_END > size { NothingAllocated(b, kernel, waitIndex, []); return OutOfBounds, []; }
    NothingBuilt(b, kernel, waitIndex, bufDirs);
    hide Going, InPlace, WaitHandle, Passes, Closed, OpenStart, DirsAre, Fits, Overruns, NumReqs, Handles, StopsAt,
      Ends, Groups, EndsGroup, EntryIsOutside, Allocated;
    for i := 0 to |b.parts|
      invariant Going(b, kernel, waitIndex, i, memory, executes, createBO, entries, waitHandle, bufDirs, created)
    {
      var part, isLast := b.parts[i], i == |b.parts| - 1;
      WhereEntryIs(b, kernel, waitIndex, i, memory, executes, createBO, entries, waitHandle, bufDirs, created);
      if b.partial && !isLast && part.bufIndex == b.parts[i + 1].bufIndex {
        r := Release(b, kernel, i, memory, executes, createBO, entries, waitIndex, waitHandle, bufDirs, created,
                     created);
        return;
      }
      if part.size != 0 && !b.bufs[part.bufIndex].heap {
        r := Release(b, kernel, i, memory, executes, createBO, entries, waitIndex, waitHandle, bufDirs, created,
                     created);
        return;
      }
      EntryIsOutsideIf(b, kernel, waitIndex, i, memory, executes, createBO, entries, created);
      if EntryIsOutside(createBO, |entries|, size) { return OutOfBounds, created; }
      EndsHere(b.parts, i);
      ghost var before := entries;
      entries := entries + [SliceEntry(part.size, part.offset, b.slices[i])];
      if isLast || part.bufIndex != b.parts[i + 1].bufIndex || part.size == 0 {
        ghost var known := created;
        var answer, memory', executes', createBO' :=
          CloseRecord(b, kernel, i, memory, executes, createBO, entries, before);
        if !answer.Refused? { created := created + [answer.handle]; }
        if !answer.Ready? {
          r := Release(b, kernel, i, memory, executes, createBO, before, waitIndex, waitHandle, bufDirs, known,
                       created);
          return;
        }
        if |executes| >= numReqs {
          NextElement(b, kernel, waitIndex, i);
          RecordOverruns(b, kernel, waitIndex, i, created);
          return OutOfBounds, created;
        }
        RecordEnds(b, kernel, waitIndex, i, memory, executes, createBO, before, waitHandle, bufDirs, known,
                   memory', executes', createBO', answer.handle);
        memory, executes, createBO := memory', executes', createBO';
        if i == waitIndex { waitHandle := answer.handle; }
        bufDirs := bufDirs[part.bufIndex := if part.size != 0 then b.dirs[i] else NoDir];
        entries := [];
      } else {
        RecordGoesOn(b, kernel, waitIndex, i, memory, executes, createBO, before, waitHandle, bufDirs, created);
      }
    }
    AllFit(b, kernel, waitIndex, memory, executes, createBO, entries, waitHandle, bufDirs, created);
    r := Made(Handle(memory, executes, waitHandle, bufDirs));
  }

  lemma GroupStaysOpen(b: Batch, kernel: Kernel, i: nat, memory: map<nat, Record>, executes: seq<ExecuteEntry>,
                       createBO: nat, entries: seq<SliceEntry>)
    requires b.WellFormed() && i < |b.parts| && !EndsGroup(b.parts, i)
    requires Progress(b, kernel, i, memory, executes, createBO, entries)
    ensures Progress(b, kernel, i + 1, memory, executes, createBO, entries + [EntryOf(b, i)])
  {
    hide InPlace, Stepped, EntryOf, Entries;
    NextEntry(b, OpenStart(b.parts, i), i);
  }

  /** Closing the open group behind element `i`. */
  lemma CloseGroup(b: Batch, kernel: Kernel, i: nat, memory: map<nat, Record>, executes: seq<ExecuteEntry>,
                   handle: U32)
    requires b.WellFormed() && i < |b.parts| && EndsGroup(b.parts, i)
    requires InPlace(b, kernel, Closed(b.parts, i), memory, executes)
    requires kernel(|Closed(b.parts, i)|) == Ready(handle)
    ensures var gs, start := Closed(b.parts, i), OpenStart(b.parts, i); var at := Stepped(gs, |gs|);
            var boSize := if b.parts[i].size != 0 then b.bufs[b.parts[i].bufIndex].size else 0;
            var after := Closed(b.parts, i + 1);
            && InPlace(b, kernel, after,
                       memory[at := Record(handle, boSize, b.dirs[i], Entries(b, start, i + 1), true)],
                       executes + [ExecuteEntry(handle, b.dirs[i], 0)])
            && Stepped(after, |after|) == at + HEADERS + SLICE_ENTRY_SIZE * (i + 1 - start)
            && |after| == |gs| + 1 && Entries(b, OpenStart(b.parts, i + 1), i + 1) == []
  {
    hide InPlace, Stepped, RecordOf, Entries, Closed, OpenStart;
    var gs, g := Closed(b.parts, i), Group(OpenStart(b.parts, i), i + 1 - OpenStart(b.parts, i));
    ClosedNext(b.parts, i);
    BuiltMore(b, kernel, gs, memory, executes, g, handle);
    RecordIs(b, g, handle);
    StepFarther(gs, g);
    NoEntries(b, i + 1);
  }

  /** How one more element changes the awaited handle and the conditions. */
  lemma NextElement(b: Batch, kernel: Kernel, waitIndex: int, i: nat)
    requires b.WellFormed() && i < |b.parts| && Supported(b, i) && Passes(b, kernel, i)
    ensures var k := |Closed(b.parts, i)|;
            if EndsGroup(b.parts, i) then
              kernel(k).Ready? ==>
                && Passes(b, kernel, i + 1)
                && WaitHandle(b, kernel, waitIndex, i + 1)
                   == if i == waitIndex then kernel(k).handle else WaitHandle(b, kernel, waitIndex, i)
            else
              Passes(b, kernel, i + 1)
              && WaitHandle(b, kernel, waitIndex, i + 1) == WaitHandle(b, kernel, waitIndex, i)
  {
  }

  lemma NoEntries(b: Batch, i: nat)
    requires b.WellFormed() && i <= |b.parts|
    ensures Entries(b, i, i) == []
  {
  }

  lemma NothingBuilt(b: Batch, kernel: Kernel, waitIndex: int, bufDirs: seq<Dir>)
    requires b.WellFormed() && |bufDirs| == |b.bufs| && forall x :: 0 <= x < |bufDirs| ==> bufDirs[x] == NoDir
    requires CHANNEL_END <= Allocated(b.parts, |b.bufs|)
    ensures Going(b, kernel, waitIndex, 0, map[], [], 0, [], 0, bufDirs, [])
  {
    SomethingAllocated(b);
  }

  lemma NextEntry(b: Batch, start: nat, i: nat)
    requires b.WellFormed() && start <= i < |b.parts|
    ensures Entries(b, start, i + 1)
            == Entries(b, start, i) + [EntryOf(b, i)]
  {
    var whole, head := Entries(b, start, i + 1), Entries(b, start, i);
    forall j | 0 <= j < |head| ensures whole[j] == head[j] {}
    assert whole == head + [EntryOf(b, i)];
  }

  lemma RecordIs(b: Batch, g: Group, handle: U32)
    requires b.WellFormed() && g.count > 0 && g.start + g.count <= |b.parts|
    ensures var i := g.start + g.count - 1;
            RecordOf(b, g, handle)
            == Record(handle, if b.parts[i].size != 0 then b.bufs[b.parts[i].bufIndex].size else 0, b.dirs[i],
                      Entries(b, g.start, g.start + g.count), true)
  {
  }

  /** Element `i` is the first that cannot be handled. */
  predicate StopsAt(b: Batch, kernel: Kernel, i: nat)
    requires b.WellFormed()
  {
    i < |b.parts| && Passes(b, kernel, i) && !Passes(b, kernel, i + 1)
  }

  lemma StopsHere(b: Batch, kernel: Kernel, i: nat)
    requires b.WellFormed() && i < |b.parts| && Passes(b, kernel, i)
    requires !Supported(b, i) || (EndsGroup(b.parts, i) && !kernel(|Closed(b.parts, i)|).Ready?)
    ensures StopsAt(b, kernel, i) && !Passes(b, kernel, |b.parts|)
  {
    NotPassed(b, kernel, i);
    hide Passes, Supported, EndsGroup, Closed;
    if Passes(b, kernel, |b.parts|) { PassesBefore(b, kernel, i + 1, |b.parts|); }
  }

  lemma NotPassed(b: Batch, kernel: Kernel, i: nat)
    requires b.WellFormed() && i < |b.parts|
    requires !Supported(b, i) || (EndsGroup(b.parts, i) && !kernel(|Closed(b.parts, i)|).Ready?)
    ensures !Passes(b, kernel, i + 1)
  {
    hide Supported;
    if EndsGroup(b.parts, i) { ClosedNext(b.parts, i); }
  }

  /** What is passed later was passed before. */
  lemma PassesBefore(b: Batch, kernel: Kernel, i: nat, j: nat)
    requires b.WellFormed() && i <= j <= |b.parts| && Passes(b, kernel, j)
    ensures Passes(b, kernel, i)
  {
    ClosedIsPrefix(b.parts, i, j);
  }

  /** The handle to wait on is a record's exactly when the awaited element ends its group. */
  lemma WaitsIff(b: Batch, kernel: Kernel, waitIndex: nat)
    requires b.WellFormed() && waitIndex < |b.parts| && Passes(b, kernel, |b.parts|)
    requires forall k {:trigger kernel(k)} :: kernel(k).Ready? ==> kernel(k).handle != 0
    ensures WaitHandle(b, kernel, waitIndex, |b.parts|) != 0 <==> EndsGroup(b.parts, waitIndex)
  {
    if EndsGroup(b.parts, waitIndex) { ClosedIsPrefix(b.parts, waitIndex + 1, |b.parts|); }
  }

  /** The handle to wait on is that of the record whose last element is the awaited one. */
  lemma AwaitedIsItsRecord(b: Batch, kernel: Kernel, waitIndex: nat) returns (k: nat)
    requires b.WellFormed() && waitIndex < |b.parts| && Passes(b, kernel, |b.parts|)
    requires EndsGroup(b.parts, waitIndex)
    ensures k < |Groups(b.parts)| && kernel(k).Ready?
    ensures Groups(b.parts)[k].start + Groups(b.parts)[k].count - 1 == waitIndex
    ensures WaitHandle(b, kernel, waitIndex, |b.parts|) == kernel(k).handle
  {
    k := |Closed(b.parts, waitIndex)|;
    ClosedNext(b.parts, waitIndex);
    ClosedIsPrefix(b.parts, waitIndex + 1, |b.parts|);
  }

  /**
   Nothing stops the loop exactly when every buffer with data is on the heap, no two neighbours share a buffer if the
   tensors are partial, and the kernel's answer to every record is of use.
   */
  lemma PassesIff(b: Batch, kernel: Kernel)
    requires b.WellFormed()
    ensures Passes(b, kernel, |b.parts|) <==>
      && (forall i :: 0 <= i < |b.parts| && b.parts[i].size != 0 ==> b.bufs[b.parts[i].bufIndex].heap)
      && (b.partial ==> forall i :: 0 <= i < |b.parts| - 1 ==> b.parts[i].bufIndex != b.parts[i + 1].bufIndex)
      && forall k {:trigger kernel(k)} :: 0 <= k < |Groups(b.parts)| ==> kernel(k).Ready?
  {
    hide Closed, OpenStart;
    assert Groups(b.parts) == Closed(b.parts, |b.parts|);
    if Passes(b, kernel, |b.parts|) {
      forall i | 0 <= i < |b.parts| && b.parts[i].size != 0 ensures b.bufs[b.parts[i].bufIndex].heap {
        assert Supported(b, i);
      }
      if b.partial { AllSupported(b, kernel); }
    }
  }

  // ------------------------------------------------------------------------------------------------
  // The allocation
  // ------------------------------------------------------------------------------------------------

  lemma NothingAllocated(b: Batch, kernel: Kernel, waitIndex: int, created: seq<U32>)
    requires b.WellFormed() && CHANNEL_END > Allocated(b.parts, |b.bufs|)
    ensures Overruns(b, kernel) && !Fits(b)
    ensures Ends(b, kernel, waitIndex, OutOfBounds, created)
  {
  }

  lemma SomethingAllocated(b: Batch)
    requires b.WellFormed() && CHANNEL_END <= Allocated(b.parts, |b.bufs|)
    ensures b.bufs != []
  {
    if b.parts == [] { assert Zeros(b.parts, 0) == 0; } else { assert b.parts[0].bufIndex < |b.bufs|; }
  }

  /** Where the open record's entries end: all closed records and all elements so far take their room. */
  lemma EntryIsAt(b: Batch, kernel: Kernel, i: nat, memory: map<nat, Record>, executes: seq<ExecuteEntry>,
                  createBO: nat, entries: seq<SliceEntry>)
    requires b.WellFormed() && i <= |b.parts| && Progress(b, kernel, i, memory, executes, createBO, entries)
    ensures |executes| == |Closed(b.parts, i)|
    ensures createBO + SLICE_ENTRY_SIZE * |entries| == HEADERS * |Closed(b.parts, i)| + SLICE_ENTRY_SIZE * i
  {
    hide InPlace;
    var gs := Closed(b.parts, i);
    SteppedIsClosedForm(gs, |gs|);
    ClosedIsChained(b.parts, i);
    EntriesBeforeIsStart(gs, |gs|);
  }

  /** Only the entry of the last element can be outside: of a record that is one too many. */
  lemma EntryOverruns(b: Batch, kernel: Kernel, waitIndex: int, i: nat, created: seq<U32>)
    requires b.WellFormed() && i < |b.parts| && Passes(b, kernel, i) && Supported(b, i)
    requires |Closed(b.parts, i)| <= NumReqs(b.parts, |b.bufs|)
    requires HEADERS * (|Closed(b.parts, i)| + 1) + SLICE_ENTRY_SIZE * (i + 1)
             > Allocated(b.parts, |b.bufs|)
    ensures Overruns(b, kernel) && !Fits(b)
    ensures Ends(b, kernel, waitIndex, OutOfBounds, created)
  {
    hide Passes, NumReqs, Closed, OpenStart;
    assert |Closed(b.parts, i)| == NumReqs(b.parts, |b.bufs|) && i == |b.parts| - 1;
    ClosedNext(b.parts, i);
    RecordsFitIff(b.parts, |b.bufs|);
  }

  /** A complete record that is one too many has no execute entry, and its end is where the overrun was to be. */
  lemma RecordOverruns(b: Batch, kernel: Kernel, waitIndex: int, i: nat, created: seq<U32>)
    requires b.WellFormed() && i < |b.parts| - 1 && EndsGroup(b.parts, i) && Passes(b, kernel, i + 1)
    requires |Closed(b.parts, i)| == NumReqs(b.parts, |b.bufs|)
    ensures Overruns(b, kernel) && !Fits(b)
    ensures Ends(b, kernel, waitIndex, OutOfBounds, created)
  {
    assert Supported(b, i);
    PassesBefore(b, kernel, i, i + 1);
    hide Passes, NumReqs, Closed, OpenStart;
    ClosedNext(b.parts, i);
    ClosedIsPrefix(b.parts, i + 1, |b.parts|);
    RecordsFitIff(b.parts, |b.bufs|);
  }

  /** What stops the loop stops it before an overrun, if no record was too many until then. */
  lemma StopsFirst(b: Batch, kernel: Kernel, i: nat)
    requires b.WellFormed() && b.bufs != [] && StopsAt(b, kernel, i)
    requires |Closed(b.parts, i)| <= NumReqs(b.parts, |b.bufs|)
    requires i == |b.parts| - 1 && Supported(b, i) ==> |Closed(b.parts, i)| < NumReqs(b.parts, |b.bufs|)
    ensures !Overruns(b, kernel)
  {
    var n := NumReqs(b.parts, |b.bufs|);
    assert Passes(b, kernel, i) && !Passes(b, kernel, i + 1);
    hide StopsAt, Supported, Passes, NumReqs, Closed, OpenStart;
    if |Groups(b.parts)| > n {
      if i == |b.parts| - 1 { LastAddsOne(b.parts, i); }
      LaterEnds(b.parts, i, |b.parts|, n);
      if ExtraEnd(b) > i && Passes(b, kernel, ExtraEnd(b)) { PassesBefore(b, kernel, i + 1, ExtraEnd(b)); }
    }
  }

  lemma LastAddsOne(parts: seq<Part>, i: nat)
    requires i == |parts| - 1
    ensures |Groups(parts)| == |Closed(parts, i)| + 1
  {
  }

  lemma AllFit(b: Batch, kernel: Kernel, waitIndex: int, memory: map<nat, Record>, executes: seq<ExecuteEntry>,
               createBO: nat, entries: seq<SliceEntry>, waitHandle: U32, bufDirs: seq<Dir>, created: seq<U32>)
    requires b.WellFormed()
    requires Going(b, kernel, waitIndex, |b.parts|, memory, executes, createBO, entries, waitHandle, bufDirs, created)
    ensures Ends(b, kernel, waitIndex, Made(Handle(memory, executes, waitHandle, bufDirs)), created)
  {
    hide InPlace, Passes, Closed, OpenStart, DirsAre, NumReqs, Handles, WaitHandle;
    RecordsFitIff(b.parts, |b.bufs|);
  }

  lemma WhereEntryIs(b: Batch, kernel: Kernel, waitIndex: int, i: nat, memory: map<nat, Record>,
                     executes: seq<ExecuteEntry>, createBO: nat, entries: seq<SliceEntry>, waitHandle: U32,
                     bufDirs: seq<Dir>, created: seq<U32>)
    requires b.WellFormed()
    requires Going(b, kernel, waitIndex, i, memory, executes, createBO, entries, waitHandle, bufDirs, created)
    ensures i <= |b.parts| && b.bufs != [] && |bufDirs| == |b.bufs|
    ensures |executes| == |Closed(b.parts, i)| <= NumReqs(b.parts, |b.bufs|)
    ensures Passes(b, kernel, i) && Progress(b, kernel, i, memory, executes, createBO, entries)
  {
    hide InPlace, Passes, Closed, OpenStart, NumReqs, Handles, WaitHandle, Progress;
    EntryIsAt(b, kernel, i, memory, executes, createBO, entries);
  }

  /**
   The entry is outside only at the last element of all and in a record that is one too many. The channel of a record
   that was opened in front of it never is.
   */
  lemma EntryIsOutsideIf(b: Batch, kernel: Kernel, waitIndex: int, i: nat, memory: map<nat, Record>,
                         executes: seq<ExecuteEntry>, createBO: nat, entries: seq<SliceEntry>, created: seq<U32>)
    requires b.WellFormed() && i < |b.parts| && |Closed(b.parts, i)| <= NumReqs(b.parts, |b.bufs|)
    requires Supported(b, i)
    requires Passes(b, kernel, i) && Progress(b, kernel, i, memory, executes, createBO, entries)
    ensures EntryIsOutside(createBO, |entries|, Allocated(b.parts, |b.bufs|)) ==>
              Ends(b, kernel, waitIndex, OutOfBounds, created)
    ensures !EntryIsOutside(createBO, |entries|, Allocated(b.parts, |b.bufs|)) && i == |b.parts| - 1 ==>
              |Closed(b.parts, i)| < NumReqs(b.parts, |b.bufs|)
    ensures i > 0 ==> createBO + CHANNEL_END <= Allocated(b.parts, |b.bufs|)
  {
    hide InPlace, Passes, Closed, OpenStart, NumReqs, Ends, Progress;
    EntryIsAt(b, kernel, i, memory, executes, createBO, entries);
    if EntryIsOutside(createBO, |entries|, Allocated(b.parts, |b.bufs|)) {
      EntryOverruns(b, kernel, waitIndex, i, created);
    }
  }

  lemma EndsHere(parts: seq<Part>, i: nat)
    requires i < |parts|
    ensures EndsGroup(parts, i)
            <==> i == |parts| - 1 || parts[i].bufIndex != parts[i + 1].bufIndex || parts[i].size == 0
  {
  }

  lemma RecordEnds(b: Batch, kernel: Kernel, waitIndex: int, i: nat, memory: map<nat, Record>,
                   executes: seq<ExecuteEntry>, createBO: nat, entries: seq<SliceEntry>, waitHandle: U32,
                   bufDirs: seq<Dir>, created: seq<U32>, memory': map<nat, Record>, executes': seq<ExecuteEntry>,
                   createBO': nat, handle: U32)
    requires b.WellFormed() && i < |b.parts| && EndsGroup(b.parts, i) && Supported(b, i)
    requires Going(b, kernel, waitIndex, i, memory, executes, createBO, entries, waitHandle, bufDirs, created)
    requires kernel(|Closed(b.parts, i)|) == Ready(handle) && |Closed(b.parts, i)| < NumReqs(b.parts, |b.bufs|)
    requires Progress(b, kernel, i + 1, memory', executes', createBO', [])
    ensures b.parts[i].bufIndex < |bufDirs|
    ensures Passes(b, kernel, i + 1)
    ensures var dir := if b.parts[i].size != 0 then b.dirs[i] else NoDir;
            Going(b, kernel, waitIndex, i + 1, memory', executes', createBO', [],
                  if i == waitIndex then handle else waitHandle, bufDirs[b.parts[i].bufIndex := dir],
                  created + [handle])
  {
    hide InPlace, Passes, Closed, OpenStart, DirsAre, NumReqs, Handles, WaitHandle, Progress, Supported, EndsGroup;
    NextElement(b, kernel, waitIndex, i);
    NextDir(b, bufDirs, i);
    ClosedNext(b.parts, i);
    NextHandle(kernel, |Closed(b.parts, i)|);
  }

  lemma RecordGoesOn(b: Batch, kernel: Kernel, waitIndex: int, i: nat, memory: map<nat, Record>,
                     executes: seq<ExecuteEntry>, createBO: nat, entries: seq<SliceEntry>, waitHandle: U32,
                     bufDirs: seq<Dir>, created: seq<U32>)
    requires b.WellFormed() && i < |b.parts| && !EndsGroup(b.parts, i) && Supported(b, i)
    requires Going(b, kernel, waitIndex, i, memory, executes, createBO, entries, waitHandle, bufDirs, created)
    ensures Going(b, kernel, waitIndex, i + 1, memory, executes, createBO, entries + [EntryOf(b, i)], waitHandle,
                  bufDirs, created)
  {
    hide InPlace, Passes, Closed, OpenStart, DirsAre, NumReqs, Handles, WaitHandle, Progress, Supported, EndsGroup;
    NextElement(b, kernel, waitIndex, i);
    NextDir(b, bufDirs, i);
    StaysClosed(b.parts, i);
    GroupStaysOpen(b, kernel, i, memory, executes, createBO, entries);
  }

  lemma StaysClosed(parts: seq<Part>, i: nat)
    requires i < |parts| && !EndsGroup(parts, i)
    ensures Closed(parts, i + 1) == Closed(parts, i)
  {
  }

  lemma NextHandle(kernel: Kernel, n: nat)
    ensures !kernel(n).Refused? ==> Handles(kernel, n + 1) == Handles(kernel, n) + [kernel(n).handle]
  {
  }

  // ------------------------------------------------------------------------------------------------
  // Partial tensors
  // ------------------------------------------------------------------------------------------------

  /** A handle for partial tensors has one execute entry per element, made for that element's own buffer. */
  lemma PartialEntryIsElement(b: Batch, kernel: Kernel, memory: map<nat, Record>, executes: seq<ExecuteEntry>, k: nat)
    requires b.WellFormed() && b.partial && Passes(b, kernel, |b.parts|) && k < |b.parts|
    requires InPlace(b, kernel, Groups(b.parts), memory, executes)
    ensures |executes| == |b.parts|
    ensures HEADERS * k + SLICE_ENTRY_SIZE * k in memory
    ensures var r := memory[HEADERS * k + SLICE_ENTRY_SIZE * k];
            r.entries == [EntryOf(b, k)] && executes[k] == ExecuteEntry(r.handle, b.dirs[k], 0)
  {
    hide InPlace, Stepped, RecordOf, EntryOf, Passes;
    var gs := Groups(b.parts);
    AllSupported(b, kernel);
    SingleElementGroups(b.parts, |b.parts|);
    SteppedIsClosedForm(gs, k);
    GroupsPartition(b.parts);
    EntriesBeforeIsStart(gs, k);
    assert gs[k] == Group(k, 1);
    RecordFor(b, kernel, gs, memory, executes, k);
    NextEntry(b, k, k);
    NoEntries(b, k);
  }

  lemma AllSupported(b: Batch, kernel: Kernel)
    requires b.WellFormed() && b.partial && Passes(b, kernel, |b.parts|)
    ensures NoSharing(b.parts)
  {
    forall i | 0 <= i < |b.parts| - 1 ensures b.parts[i].bufIndex != b.parts[i + 1].bufIndex {
      assert Supported(b, i);
    }
  }

  /** Sets the sizes of the input buffers that are sent partially. */
  method PrepareData(entries: array<ExecuteEntry>, parts: seq<Part>, sizes: seq<nat>)
    requires entries.Length == |sizes| && entries.Length <= |parts|
    requires forall i :: 0 <= i < entries.Length ==> parts[i].bufIndex < |sizes|
    modifies entries
    ensures forall i :: 0 <= i < entries.Length ==>
      var size := sizes[parts[i].bufIndex];
      entries[i] == if old(entries[i]).dir == ToDev && size != 0 then old(entries[i]).(resize := size)
                    else old(entries[i])
  {
    for i := 0 to entries.Length
      invariant forall k :: i <= k < entries.Length ==> entries[k] == old(entries[k])
      invariant forall k :: 0 <= k < i ==>
        var size := sizes[parts[k].bufIndex];
        entries[k] == if old(entries[k]).dir == ToDev && size != 0 then old(entries[k]).(resize := size)
                      else old(entries[k])
    {
      var bufIdx := parts[i].bufIndex;
      if entries[i].dir == ToDev && sizes[bufIdx] != 0 {
        entries[i] := entries[i].(resize := sizes[bufIdx]);
      }
    }
  }
}
