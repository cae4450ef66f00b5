/**
 Getting an inference handle for a network: directions, awaited element and batch come from the parsed requests, and
 the records that are built tell the kernel what the requests say.
 */
module InfRequests {
  import opened Wrappers
  import opened ByteCodec
  import opened MetadataImage
  import opened DmaElement
  import opened DmaPipeline
  import opened DmaUpdate
  import opened DmaMetaData
  import opened DmaWords
  import opened InfGrouping
  import opened InfRecords
  import opened InfHandle

  // ------------------------------------------------------------------------------------------------
  // Directions
  // ------------------------------------------------------------------------------------------------

  /** A request that moves data to the host; all others, those without data included, count as sent to the device. */
  function DirFor(r: DmaRequest): Dir { if r.size != 0 && r.inOut != DMA_IN then FromDev else ToDev }

  /** The network's copy of a request keeps its buffer and its direction, whatever its semaphores are. */
  lemma ItemKeepsDirection(rs: seq<DmaRequest>, i: nat, ddrBase: U64, mcIDBase: U64)
    requires i < |rs|
    ensures var it := Network(rs, ddrBase, mcIDBase)[i];
            it.bufIndex == rs[i].num && it.fields.cmd.direction == Direction(rs[i])
  {
    hide FirstWord, EncodeCmd, DecodeCmd, ReqIDOf, SeqIDOf, CmdOf, Wide, Low, High, DoorbellWord, WriteOf, LenOf,
      SemWord, SemOfWord, SemNo, McOffset, Shifted, Network, Direction;
    NetworkItem(rs, i, ddrBase, mcIDBase);
    var e := ParsedElement(rs[i], i == |rs| - 1);
    FirstWordFields(e.reqID, e.seqID, EncodeCmd(e.cmd));
    CmdFits(rs[i], e.cmd);
  }

  lemma CmdFits(r: DmaRequest, cmd: DmaCmd)
    requires cmd == DmaCmd(false, cmd.response, BULK, Direction(r))
    ensures DecodeCmd(EncodeCmd(cmd)) == cmd
  {
    assert cmd.Fits() by { hide EncodeCmd, DecodeCmd; }
    CmdRoundTripIff(cmd);
  }

  /**
   The directions of the elements. Every buffer number is compared with the number of elements, not of buffers.
   */
  method GetDmaDirections(stencil: seq<Item>, total: nat) returns (dirs: Option<seq<Dir>>)
    ensures dirs.Some? <==> |stencil| == total && forall i :: 0 <= i < total ==> stencil[i].bufIndex < total
    ensures dirs.Some? ==> |dirs.value| == total
    ensures dirs.Some? ==> forall i :: 0 <= i < total ==>
      (dirs.value[i] == FromDev <==>
        stencil[i].bufIndex >= 0 && stencil[i].fields.cmd.direction !in [NO_TRANSFER, INBOUND])
      && dirs.value[i] in [ToDev, FromDev]
  {
    if |stencil| != total { return None; }
    var ds: seq<Dir> := [];
    for i := 0 to total
      invariant |ds| == i && forall j :: 0 <= j < i ==> stencil[j].bufIndex < total
      invariant forall j :: 0 <= j < i ==>
        (ds[j] == FromDev <==>
          stencil[j].bufIndex >= 0 && stencil[j].fields.cmd.direction !in [NO_TRANSFER, INBOUND])
        && ds[j] in [ToDev, FromDev]
    {
      var item := stencil[i];
      if item.bufIndex >= total { return None; }
      if item.bufIndex < 0 || item.fields.cmd.direction == NO_TRANSFER {
        ds := ds + [ToDev];
      } else {
        ds := ds + [if item.fields.cmd.direction == INBOUND then ToDev else FromDev];
      }
    }
    dirs := Some(ds);
  }

  /** The last element that the device answers; where there is none, the last of all. */
  predicate IsAwaited(dirs: seq<Dir>, w: int) {
    if FromDev in dirs then
      0 <= w < |dirs| && dirs[w] == FromDev && forall j :: w < j < |dirs| ==> dirs[j] != FromDev
    else w == |dirs| - 1
  }

  /** The element to wait for, and for how many records to allocate. */
  method FindAwaited(dirs: seq<Dir>, parts: seq<Part>, numBuf: nat) returns (waitIndex: int, numReqs: nat)
    requires |dirs| == |parts|
    ensures IsAwaited(dirs, waitIndex) && numReqs == NumReqs(parts, numBuf)
  {
    waitIndex, numReqs := -1, numBuf;
    for i := 0 to |parts|
      invariant -1 <= waitIndex < i && (waitIndex >= 0 ==> dirs[waitIndex] == FromDev)
      invariant forall j :: waitIndex < j < i ==> dirs[j] != FromDev
      invariant numReqs == numBuf + Zeros(parts, i)
    {
      if dirs[i] == FromDev { waitIndex := i; }
      if parts[i].size == 0 { numReqs := numReqs + 1; }
    }
    if waitIndex == -1 { waitIndex := |parts| - 1; }
  }

  // ------------------------------------------------------------------------------------------------
  // The batch
  // ------------------------------------------------------------------------------------------------

  /** What parsing and activation make of the requests, with the user's buffers. */
  function BatchOf(rs: seq<DmaRequest>, ddrBase: U64, mcIDBase: U64, bufs: seq<KmdBuffer>, partial: bool): Batch {
    Batch(ElemToBuf(rs),
          seq(|rs|, i requires 0 <= i < |rs| => SliceOf(Network(rs, ddrBase, mcIDBase)[i].fields)),
          seq(|rs|, i requires 0 <= i < |rs| => DirFor(rs[i])), bufs, partial)
  }

  /** Parsing guarantees a well-formed batch for as many buffers as it counted. */
  lemma ParsedIsWellFormed(rs: seq<DmaRequest>, ddrBase: U64, mcIDBase: U64, bufs: seq<KmdBuffer>, partial: bool)
    requires |bufs| == NumBuf(rs)
    ensures BatchOf(rs, ddrBase, mcIDBase, bufs, partial).WellFormed()
  {
    hide SliceOf, Network, NumBuf;
    assert forall i :: 0 <= i < |rs| ==> rs[i].num < NumBuf(rs);
  }

  /** Every buffer number is below the number of requests. */
  predicate NumbersBelowCount(rs: seq<DmaRequest>) {
    forall i :: 0 <= i < |rs| ==> rs[i].num < |rs|
  }

  lemma DirectionsAre(rs: seq<DmaRequest>, ddrBase: U64, mcIDBase: U64, dirs: seq<Dir>)
    requires |dirs| == |rs|
    requires forall i :: 0 <= i < |rs| ==>
      var it := Network(rs, ddrBase, mcIDBase)[i];
      (dirs[i] == FromDev <==> it.bufIndex >= 0 && it.fields.cmd.direction !in [NO_TRANSFER, INBOUND])
      && dirs[i] in [ToDev, FromDev]
    ensures forall i :: 0 <= i < |rs| ==> dirs[i] == DirFor(rs[i])
  {
    hide Network;
    forall i | 0 <= i < |rs| ensures dirs[i] == DirFor(rs[i]) { ItemKeepsDirection(rs, i, ddrBase, mcIDBase); }
  }

  lemma NumbersAre(rs: seq<DmaRequest>, ddrBase: U64, mcIDBase: U64)
    ensures (forall i :: 0 <= i < |rs| ==> Network(rs, ddrBase, mcIDBase)[i].bufIndex < |rs|) <==> NumbersBelowCount(rs)
  {
    hide Network;
    forall i | 0 <= i < |rs| ensures Network(rs, ddrBase, mcIDBase)[i].bufIndex == rs[i].num {
      ItemKeepsDirection(rs, i, ddrBase, mcIDBase);
    }
  }

  /**
   How a handle is asked for: it is there; there is none, and what was built is released; there is none, and after the
   release the records are walked again in memory that is gone; or building wrote outside of its allocation.
   */
  datatype Answered = Got(handle: Handle) | Nothing(closed: seq<U32>) | ReadsDestroyed(closed: seq<U32>) | WritesOutside

  /** What is handed out for a batch, and what becomes of the buffer objects that were created for it. */
  ghost predicate Obtained(b: Batch, kernel: Kernel, pciInfo: bool, r: Answered, created: seq<U32>)
    requires b.WellFormed()
  {
    var all := Passes(b, kernel, |b.parts|) && Fits(b);
    && (r.WritesOutside? <==> Overruns(b, kernel))
    && (r.Got? <==> all && pciInfo)
    && (r.Got? ==>
          && InPlace(b, kernel, Groups(b.parts), r.handle.memory, r.handle.executes)
          && DirsAre(b, r.handle.bufDirs, |b.parts|) && created == Handles(kernel, |Groups(b.parts)|)
          && exists w {:trigger IsAwaited(b.dirs, w)} ::
               IsAwaited(b.dirs, w) && r.handle.waitHandle == WaitHandle(b, kernel, w, |b.parts|))
    && (all && !pciInfo ==> r == Nothing(created) && created == Handles(kernel, |Groups(b.parts)|))
    && (!all && !r.WritesOutside? ==>
          exists i :: StopsAt(b, kernel, i) && GivenUp(b, kernel, i, r, created))
  }

  /** The complete records were released; if there were any, the second walk reads memory that is gone. */
  predicate GivenUp(b: Batch, kernel: Kernel, i: nat, r: Answered, created: seq<U32>)
    requires b.WellFormed() && i < |b.parts|
  {
    var n := |Closed(b.parts, i)|;
    && r == (if n > 0 then ReadsDestroyed(Handles(kernel, n)) else Nothing([]))
    && created == Handles(kernel, n) + Remaining(b, kernel, i)
  }

  /**
   The handle for an activated network. Without the right number of buffers, or with a buffer number that is not below
   the number of requests, there is none; otherwise the batch decides.
   */
  method GetInfHandle(meta: QMetaData, bufs: seq<KmdBuffer>, partial: bool, kernel: Kernel, pciInfo: bool,
                      ghost rs: seq<DmaRequest>, ghost ddrBase: U64, ghost mcIDBase: U64)
    returns (r: Answered, created: seq<U32>)
    requires meta.stencil == Network(rs, ddrBase, mcIDBase)
    requires meta.elemToBufVec == ElemToBuf(rs) && meta.numBuf == NumBuf(rs)
    ensures |bufs| != NumBuf(rs) || !NumbersBelowCount(rs) ==> r == Nothing([]) && created == []
    ensures |bufs| == NumBuf(rs) && NumbersBelowCount(rs) ==>
      var b := BatchOf(rs, ddrBase, mcIDBase, bufs, partial);
      b.WellFormed() && Obtained(b, kernel, pciInfo, r, created)
  {
    hide Network, SliceOf, NumBuf, InPlace, DirsAre, Passes, WaitHandle, IsAwaited, Obtained, Ends, NumReqs, Groups;
    created := [];
    if |bufs| != meta.numBuf { return Nothing([]), []; }
    ghost var b := BatchOf(rs, ddrBase, mcIDBase, bufs, partial);
    ParsedIsWellFormed(rs, ddrBase, mcIDBase, bufs, partial);
    NumbersAre(rs, ddrBase, mcIDBase);
    var dirs := GetDmaDirections(meta.stencil, |meta.stencil|);
    if dirs.None? { return Nothing([]), []; }
    DirectionsAre(rs, ddrBase, mcIDBase, dirs.value);
    assert dirs.value == b.dirs;
    var waitIndex, numReqs := FindAwaited(dirs.value, meta.elemToBufVec, |bufs|);
    var stencil := meta.stencil;
    var slices := seq(|stencil|, i requires 0 <= i < |stencil| => SliceOf(stencil[i].fields));
    var batch := Batch(meta.elemToBufVec, slices, dirs.value, bufs, partial);
    assert batch == b;
    var made;
    made, created := CreateInfHandle(batch, kernel, waitIndex, numReqs);
    match made {
      case OutOfBounds => r := WritesOutside;
      case Failed(records, closed) =>
        r := if records > 0 then ReadsDestroyed(closed) else Nothing([]);
      case Made(handle) =>
        r := Got(handle);
        if !pciInfo {
          ghost var gs := Groups(b.parts);
          MadeIsLaid(b, kernel, waitIndex, made, created);
          var closed, _ := FreeMemReq(handle.memory, |handle.executes|, gs);
          r := Nothing(closed);
        }
    }
    Decided(b, kernel, waitIndex, pciInfo, made, r, created);
  }

  /** A handle that is given up has a record for each group to release. */
  lemma MadeIsLaid(b: Batch, kernel: Kernel, waitIndex: int, made: Making, created: seq<U32>)
    requires b.WellFormed() && Ends(b, kernel, waitIndex, made, created) && made.Made?
    ensures var gs := Groups(b.parts);
            && |made.handle.executes| == |gs| && Laid(gs, made.handle.memory)
            && ValidHandles(gs, made.handle.memory, |gs|) == created
  {
    hide Passes, Fits, Overruns, StopsAt, DirsAre, WaitHandle, Groups, AllRecorded, Before;
    InPlaceIsLaid(b, kernel, Groups(b.parts), made.handle.memory, made.handle.executes, |Groups(b.parts)|);
  }

  lemma Decided(b: Batch, kernel: Kernel, waitIndex: int, pciInfo: bool, made: Making, r: Answered,
                created: seq<U32>)
    requires b.WellFormed() && Ends(b, kernel, waitIndex, made, created) && IsAwaited(b.dirs, waitIndex)
    requires made.OutOfBounds? ==> r == WritesOutside
    requires made.Failed? ==> r == if made.records > 0 then ReadsDestroyed(made.closed) else Nothing([])
    requires made.Made? ==> r == if pciInfo then Got(made.handle) else Nothing(created)
    ensures Obtained(b, kernel, pciInfo, r, created)
  {
    hide Passes, Fits, Overruns, DirsAre, WaitHandle, Groups, InPlace, IsAwaited, Closed, Handles, Remaining;
    if made.Failed? {
      var i :| StopsAt(b, kernel, i) && FailedAt(b, kernel, i, made, created);
      assert GivenUp(b, kernel, i, r, created);
    }
  }

  // ------------------------------------------------------------------------------------------------
  // What the kernel is told
  // ------------------------------------------------------------------------------------------------

  /**
   What a record tells the kernel about request `i`: an entry with its size, its offset in the buffer and what it stands
   for. The record is for the request's buffer and has the direction of the last request in it.
   */
  predicate Tells(record: Record, execute: ExecuteEntry, g: Group, rs: seq<DmaRequest>, i: nat, ddrBase: U64,
                  mcIDBase: U64, bufs: seq<KmdBuffer>)
    requires |bufs| == NumBuf(rs)
  {
    && g.start <= i < g.start + g.count == g.start + |record.entries| <= |rs|
    && record.entries[i - g.start]
       == SliceEntry(rs[i].size, if rs[i].size == 0 then 0 else rs[i].hostOffset % TWO32,
                     SliceFor(rs[i], ddrBase, mcIDBase))
    && SliceSays(record.entries[i - g.start].slice, rs[i], ddrBase, mcIDBase)
    && var last := rs[g.start + g.count - 1];
       && last.num == rs[i].num && record.dir == DirFor(last)
       && record.boSize == (if last.size != 0 then bufs[last.num].size else 0)
       && execute == ExecuteEntry(record.handle, record.dir, 0)
  }

  /** From the metadata to the kernel: every request within the hardware's limits is told by the record of its group. */
  lemma {:induction false} RecordsMeanRequests(rs: seq<DmaRequest>, ddrBase: U64, mcIDBase: U64, bufs: seq<KmdBuffer>,
                                               partial: bool, kernel: Kernel, memory: map<nat, Record>,
                                               executes: seq<ExecuteEntry>, i: nat)
    returns (k: nat)
    requires i < |rs| && WithinLimits(rs[i]) && |bufs| == NumBuf(rs)
    requires BatchOf(rs, ddrBase, mcIDBase, bufs, partial).WellFormed()
    requires InPlace(BatchOf(rs, ddrBase, mcIDBase, bufs, partial), kernel, Groups(ElemToBuf(rs)), memory, executes)
    ensures var gs := Groups(ElemToBuf(rs));
            && k < |gs| == |executes| && Stepped(gs, k) in memory
            && Tells(memory[Stepped(gs, k)], executes[k], gs[k], rs, i, ddrBase, mcIDBase, bufs)
  {
    hide SliceOf, SliceFor, NumBuf, WithinLimits, EndsOnce, Network, Tells, RecordOf, Stepped, InPlace,
      Batch.WellFormed;
    var b, gs := BatchOf(rs, ddrBase, mcIDBase, bufs, partial), Groups(ElemToBuf(rs));
    GroupsPartition(ElemToBuf(rs));
    assert gs != [] && i < gs[|gs| - 1].start + gs[|gs| - 1].count;
    k := GroupOf(gs, |gs|, i);
    assert EndsOnce(ElemToBuf(rs), gs[k]);
    RecordFor(b, kernel, gs, memory, executes, k);
    RecordTells(rs, ddrBase, mcIDBase, bufs, partial, gs[k], executes[k].handle, i);
  }

  lemma {:induction false} RecordTells(rs: seq<DmaRequest>, ddrBase: U64, mcIDBase: U64, bufs: seq<KmdBuffer>,
                                       partial: bool, g: Group, handle: U32, i: nat)
    requires |bufs| == NumBuf(rs) && BatchOf(rs, ddrBase, mcIDBase, bufs, partial).WellFormed()
    requires EndsOnce(ElemToBuf(rs), g) && g.start <= i < g.start + g.count <= |rs| && WithinLimits(rs[i])
    ensures var b := BatchOf(rs, ddrBase, mcIDBase, bufs, partial);
            Tells(RecordOf(b, g, handle), ExecuteEntry(handle, b.dirs[g.start + g.count - 1], 0), g, rs, i, ddrBase,
                  mcIDBase, bufs)
  {
    var b := BatchOf(rs, ddrBase, mcIDBase, bufs, partial);
    hide Network, SliceOf, SliceFor, SliceSays, NumBuf, WithinLimits, EndsOnce, EndsGroup, DirFor;
    SliceForSays(rs[i], ddrBase, mcIDBase);
    SliceMeaning(rs, i, ddrBase, mcIDBase);
    GroupSharesBuffer(ElemToBuf(rs), g, i);
    assert Entries(b, g.start, g.start + g.count)[i - g.start] == EntryOf(b, i);
  }

  /** The requests alone, with the buffers and the kernel, decide whether a handle is made. */
  lemma HandleIff(rs: seq<DmaRequest>, ddrBase: U64, mcIDBase: U64, bufs: seq<KmdBuffer>, partial: bool, kernel: Kernel)
    requires |bufs| == NumBuf(rs) && BatchOf(rs, ddrBase, mcIDBase, bufs, partial).WellFormed()
    ensures var b := BatchOf(rs, ddrBase, mcIDBase, bufs, partial);
            Passes(b, kernel, |b.parts|) && Fits(b) <==>
              && (forall i :: 0 <= i < |rs| && rs[i].size != 0 ==> rs[i].num < |bufs| && bufs[rs[i].num].heap)
              && (partial ==> forall i :: 0 <= i < |rs| - 1 ==> rs[i].num != rs[i + 1].num)
              && (forall k {:trigger kernel(k)} :: 0 <= k < |Groups(ElemToBuf(rs))| ==> kernel(k).Ready?)
              && bufs != [] && Runs(ElemToBuf(rs), |rs|) <= |bufs|
  {
    hide NumBuf, Groups, Passes, Network, SliceOf, DirFor;
    var b := BatchOf(rs, ddrBase, mcIDBase, bufs, partial);
    PassesIff(b, kernel);
    forall i | 0 <= i < |rs| ensures b.parts[i].size == rs[i].size && b.parts[i].bufIndex == rs[i].num < |bufs| {}
  }

  /** A network of one request with buffer number 1 passes the parser, and no handle can be had for it. */
  lemma NumberTooHigh(r: DmaRequest)
    requires r.num >= 1
    ensures NumBuf([r]) == r.num + 1 && !NumbersBelowCount([r])
  {
    assert NumBuf([r][..0]) == 0;
    assert [r][0].num >= 1;
  }
}
