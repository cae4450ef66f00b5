/** How the elements of a batch are grouped into kernel records, and where the records lie in their allocation. */
module InfGrouping {
  import opened DmaPipeline
  import opened FiniteSets

  /** A run of elements that share one record. */
  datatype Group = Group(start: nat, count: nat)

  const CREATE_BO_SIZE := 16
  const ATTACH_SLICE_SIZE := 32
  const SLICE_ENTRY_SIZE := 72
  const HEADERS := CREATE_BO_SIZE + ATTACH_SLICE_SIZE

  /** A group ends behind an element whose successor uses another buffer, the last one, and one of size 0. */
  predicate EndsGroup(parts: seq<Part>, i: nat)
    requires i < |parts|
  {
    i == |parts| - 1 || parts[i].bufIndex != parts[i + 1].bufIndex || parts[i].size == 0
  }

  /** Where the group begins that element `i` belongs to or starts. */
  function OpenStart(parts: seq<Part>, i: nat): (s: nat)
    requires i <= |parts|
    ensures s <= i
  {
    if i == 0 then 0 else if EndsGroup(parts, i - 1) then i else OpenStart(parts, i - 1)
  }

  /** The groups that end within the first `i` elements. */
  function Closed(parts: seq<Part>, i: nat): seq<Group>
    requires i <= |parts|
  {
    if i == 0 then []
    else if EndsGroup(parts, i - 1) then
      Closed(parts, i - 1) + [Group(OpenStart(parts, i - 1), i - OpenStart(parts, i - 1))]
    else Closed(parts, i - 1)
  }

  function Groups(parts: seq<Part>): seq<Group> { Closed(parts, |parts|) }

  // ------------------------------------------------------------------------------------------------
  // Partition
  // ------------------------------------------------------------------------------------------------

  /** The groups are consecutive, non-empty and start at 0. */
  predicate Chained(gs: seq<Group>) {
    forall k :: 0 <= k < |gs| ==>
      && gs[k].count > 0
      && (k == 0 ==> gs[k].start == 0)
      && (k > 0 ==> gs[k].start == gs[k - 1].start + gs[k - 1].count)
  }

  /** Where the last group ends. */
  function EndOf(gs: seq<Group>): nat {
    if gs == [] then 0 else gs[|gs| - 1].start + gs[|gs| - 1].count
  }

  lemma {:induction false} ClosedIsChained(parts: seq<Part>, i: nat)
    requires i <= |parts|
    ensures Chained(Closed(parts, i)) && EndOf(Closed(parts, i)) == OpenStart(parts, i)
  {
    if i > 0 { ClosedIsChained(parts, i - 1); }
  }

  /** Only the last element of a group ends it. */
  predicate EndsOnce(parts: seq<Part>, g: Group) {
    && g.count > 0 && g.start + g.count <= |parts| && EndsGroup(parts, g.start + g.count - 1)
    && forall j :: g.start <= j < g.start + g.count - 1 ==> !EndsGroup(parts, j)
  }

  lemma {:induction false} OpenHasNoEnd(parts: seq<Part>, i: nat)
    requires i <= |parts|
    ensures forall j :: OpenStart(parts, i) <= j < i ==> !EndsGroup(parts, j)
  {
    if i > 0 { OpenHasNoEnd(parts, i - 1); }
  }

  lemma {:induction false} ClosedEndOnce(parts: seq<Part>, i: nat)
    requires i <= |parts|
    ensures forall k :: 0 <= k < |Closed(parts, i)| ==> EndsOnce(parts, Closed(parts, i)[k])
  {
    if i > 0 {
      ClosedEndOnce(parts, i - 1);
      OpenHasNoEnd(parts, i - 1);
    }
  }

  /** The groups partition the elements: consecutive, non-empty, from 0 to the end. */
  lemma GroupsPartition(parts: seq<Part>)
    ensures Chained(Groups(parts)) && EndOf(Groups(parts)) == |parts|
    ensures forall k :: 0 <= k < |Groups(parts)| ==> EndsOnce(parts, Groups(parts)[k])
  {
    ClosedIsChained(parts, |parts|);
    ClosedEndOnce(parts, |parts|);
    if parts != [] { assert EndsGroup(parts, |parts| - 1); }
  }

  /** All elements of a group use one buffer, and only its last one may have size 0. */
  lemma {:induction false} GroupSharesBuffer(parts: seq<Part>, g: Group, j: nat)
    requires EndsOnce(parts, g) && g.start <= j < g.start + g.count
    ensures parts[j].bufIndex == parts[g.start + g.count - 1].bufIndex
    ensures j < g.start + g.count - 1 ==> parts[j].size != 0
    decreases |parts| - j
  {
    if j < g.start + g.count - 1 {
      assert !EndsGroup(parts, j);
      GroupSharesBuffer(parts, g, j + 1);
    }
  }

  lemma ClosedNext(parts: seq<Part>, i: nat)
    requires i < |parts| && EndsGroup(parts, i)
    ensures Closed(parts, i + 1) == Closed(parts, i) + [Group(OpenStart(parts, i), i + 1 - OpenStart(parts, i))]
    ensures OpenStart(parts, i + 1) == i + 1
  {
  }

  lemma {:induction false} ClosedIsPrefix(parts: seq<Part>, i: nat, j: nat)
    requires i <= j <= |parts|
    ensures Closed(parts, i) <= Closed(parts, j)
    decreases j
  {
    if i < j { ClosedIsPrefix(parts, i, j - 1); }
  }

  /** A group that is not closed by then ends later. */
  lemma {:induction false} LaterEnds(parts: seq<Part>, i: nat, j: nat, m: nat)
    requires i <= j <= |parts| && |Closed(parts, i)| <= m < |Closed(parts, j)|
    ensures Closed(parts, j)[m].start + Closed(parts, j)[m].count > i
    decreases j
  {
    if i < j && m < |Closed(parts, j - 1)| { LaterEnds(parts, i, j - 1, m); }
  }

  /** The group that an element is in. */
  lemma {:induction false} GroupOf(gs: seq<Group>, n: nat, i: nat) returns (k: nat)
    requires Chained(gs) && 0 < n <= |gs| && i < gs[n - 1].start + gs[n - 1].count
    ensures k < n && gs[k].start <= i < gs[k].start + gs[k].count
  {
    k := n - 1;
    if i < gs[k].start { k := GroupOf(gs, k, i); }
  }

  // ------------------------------------------------------------------------------------------------
  // Number of groups
  // ------------------------------------------------------------------------------------------------

  /** The zero-sized elements among the first `i`. */
  function Zeros(parts: seq<Part>, i: nat): nat
    requires i <= |parts|
  {
    if i == 0 then 0 else Zeros(parts, i - 1) + if parts[i - 1].size == 0 then 1 else 0
  }

  /** The sized elements among the first `i` that end the use of their buffer for the moment. */
  function Runs(parts: seq<Part>, i: nat): nat
    requires i <= |parts|
  {
    if i == 0 then 0
    else Runs(parts, i - 1) + if parts[i - 1].size != 0 && EndsGroup(parts, i - 1) then 1 else 0
  }

  lemma {:induction false} GroupCount(parts: seq<Part>, i: nat)
    requires i <= |parts|
    ensures |Closed(parts, i)| == Runs(parts, i) + Zeros(parts, i)
  {
    if i > 0 { GroupCount(parts, i - 1); }
  }

  /** How many records there is room for. */
  function NumReqs(parts: seq<Part>, numBuf: nat): nat { numBuf + Zeros(parts, |parts|) }

  /** The bytes allocated for the records, and those that the records take. */
  function Allocated(parts: seq<Part>, numBuf: nat): nat {
    HEADERS * NumReqs(parts, numBuf) + SLICE_ENTRY_SIZE * |parts|
  }

  /** The offset of record `k` as the builder's pointers reach it: each record is stepped over by its own size. */
  function Stepped(gs: seq<Group>, k: nat): nat
    requires k <= |gs|
  {
    if k == 0 then 0 else Stepped(gs, k - 1) + HEADERS + SLICE_ENTRY_SIZE * gs[k - 1].count
  }

  /** The slice entries of the records before record `k`. */
  function EntriesBefore(gs: seq<Group>, k: nat): nat
    requires k <= |gs|
  {
    if k == 0 then 0 else EntriesBefore(gs, k - 1) + gs[k - 1].count
  }

  /** The builder's pointer for record `k` is the walker's closed form. */
  lemma {:induction false} SteppedIsClosedForm(gs: seq<Group>, k: nat)
    requires k <= |gs|
    ensures Stepped(gs, k) == HEADERS * k + SLICE_ENTRY_SIZE * EntriesBefore(gs, k)
  {
    if k > 0 { SteppedIsClosedForm(gs, k - 1); }
  }

  lemma {:induction false} EntriesBeforeIsStart(gs: seq<Group>, k: nat)
    requires Chained(gs) && k <= |gs|
    ensures EntriesBefore(gs, k) == if k < |gs| then gs[k].start else EndOf(gs)
  {
    if k > 0 { EntriesBeforeIsStart(gs, k - 1); }
  }

  /**
   All records, slice entries and execute entries fit what was allocated exactly when the sized runs are no more than
   the buffers.
   */
  lemma RecordsFitIff(parts: seq<Part>, numBuf: nat)
    ensures var gs := Groups(parts);
            && (Stepped(gs, |gs|) <= Allocated(parts, numBuf) <==> Runs(parts, |parts|) <= numBuf)
            && (|gs| <= NumReqs(parts, numBuf) <==> Runs(parts, |parts|) <= numBuf)
  {
    var gs := Groups(parts);
    GroupCount(parts, |parts|);
    SteppedIsClosedForm(gs, |gs|);
    GroupsPartition(parts);
    EntriesBeforeIsStart(gs, |gs|);
  }

  /** Each buffer's elements are next to each other. */
  predicate Consecutive(parts: seq<Part>) {
    forall i, j, k :: 0 <= i < j < k < |parts| && parts[i].bufIndex == parts[k].bufIndex ==>
      parts[j].bufIndex == parts[i].bufIndex
  }

  /** The buffers of the sized runs that end within the first `i` elements. */
  function RunBuffers(parts: seq<Part>, i: nat): set<int>
    requires i <= |parts|
  {
    if i == 0 then {}
    else if parts[i - 1].size != 0 && EndsGroup(parts, i - 1) then RunBuffers(parts, i - 1) + {parts[i - 1].bufIndex}
    else RunBuffers(parts, i - 1)
  }

  /** With consecutive buffers the buffer of a sized run was not seen before. */
  lemma BufferIsNew(parts: seq<Part>, i: nat)
    requires i < |parts| && Consecutive(parts)
    ensures parts[i].bufIndex !in RunBuffers(parts, i)
  {
    hide Consecutive, RunBuffers;
    RunBuffersAre(parts, i);
    forall j | 0 <= j < i && parts[j].size != 0 && EndsGroup(parts, j)
      ensures parts[j].bufIndex != parts[i].bufIndex
    {
      if parts[j].bufIndex == parts[i].bufIndex { ConsecutiveAt(parts, j, i); }
    }
  }

  lemma ConsecutiveAt(parts: seq<Part>, j: nat, i: nat)
    requires Consecutive(parts) && j < i < |parts| && parts[j].bufIndex == parts[i].bufIndex
    ensures parts[j + 1].bufIndex == parts[j].bufIndex
  {
  }

  lemma {:induction false} RunBuffersAre(parts: seq<Part>, i: nat)
    requires i <= |parts|
    ensures forall b :: b in RunBuffers(parts, i) ==>
      exists j :: 0 <= j < i && parts[j].size != 0 && EndsGroup(parts, j) && parts[j].bufIndex == b
  {
    if i > 0 { RunBuffersAre(parts, i - 1); }
  }

  /** With consecutive buffers no buffer ends two sized runs. */
  lemma {:induction false} RunsAreDistinct(parts: seq<Part>, i: nat, numBuf: nat)
    requires i <= |parts| && Consecutive(parts) && forall j :: 0 <= j < |parts| ==> parts[j].bufIndex < numBuf
    ensures |RunBuffers(parts, i)| == Runs(parts, i) && RunBuffers(parts, i) <= Below(numBuf)
  {
    hide Consecutive, EndsGroup, Below;
    if i > 0 {
      var b, before := parts[i - 1].bufIndex, RunBuffers(parts, i - 1);
      RunsAreDistinct(parts, i - 1, numBuf);
      BufferIsNew(parts, i - 1);
      assert |before + {b}| == |before| + 1 && before + {b} <= Below(numBuf);
    }
  }

  /** When each buffer's elements are consecutive, there are at most numBuf groups plus the zero-sized elements. */
  lemma ConsecutiveFits(parts: seq<Part>, numBuf: nat)
    requires Consecutive(parts) && forall j :: 0 <= j < |parts| ==> parts[j].bufIndex < numBuf
    ensures |Groups(parts)| <= numBuf + Zeros(parts, |parts|)
    ensures Stepped(Groups(parts), |Groups(parts)|) <= Allocated(parts, numBuf)
  {
    RunsAreDistinct(parts, |parts|, numBuf);
    SubsetSize(RunBuffers(parts, |parts|), Below(numBuf));
    RecordsFitIff(parts, numBuf);
    GroupCount(parts, |parts|);
  }

  /** Alternating between two buffers needs a record more than there is room for. */
  lemma AlternatingOverflows()
    ensures var parts := [Part(0, 0, 8), Part(1, 0, 8), Part(0, 8, 8)];
            |Groups(parts)| == 3 && NumReqs(parts, 2) == 2 && Stepped(Groups(parts), 3) > Allocated(parts, 2)
  {
    var parts := [Part(0, 0, 8), Part(1, 0, 8), Part(0, 8, 8)];
    assert EndsGroup(parts, 0) && EndsGroup(parts, 1) && EndsGroup(parts, 2);
    assert Closed(parts, 1) == [Group(0, 1)];
    assert Closed(parts, 2) == [Group(0, 1), Group(1, 1)];
    assert Closed(parts, 3) == [Group(0, 1), Group(1, 1), Group(2, 1)];
    assert Zeros(parts, 1) == 0 && Zeros(parts, 2) == 0 && Zeros(parts, 3) == 0;
    SteppedIsClosedForm(Groups(parts), 3);
    assert Chained(Groups(parts));
    EntriesBeforeIsStart(Groups(parts), 3);
  }

  // ------------------------------------------------------------------------------------------------
  // Zero-sized elements
  // ------------------------------------------------------------------------------------------------

  /** No zero-sized element directly follows a sized one of the same buffer. */
  predicate ZerosApart(parts: seq<Part>) {
    forall i :: 0 <= i < |parts| - 1 && parts[i].size != 0 && parts[i + 1].size == 0 ==>
      parts[i].bufIndex != parts[i + 1].bufIndex
  }

  /** The group's last element, whose size decides whether the record gets any memory, has a size if any has. */
  predicate SizedAtEnd(parts: seq<Part>, g: Group) {
    && g.count > 0 && g.start + g.count <= |parts|
    && forall j :: g.start <= j < g.start + g.count && parts[j].size != 0 ==> parts[g.start + g.count - 1].size != 0
  }

  /** Every record with sized elements gets memory exactly when the zero-sized ones keep apart. */
  lemma SizedGroupsGetMemoryIff(parts: seq<Part>)
    ensures (forall k :: 0 <= k < |Groups(parts)| ==> SizedAtEnd(parts, Groups(parts)[k])) <==> ZerosApart(parts)
  {
    GroupsPartition(parts);
    if ZerosApart(parts) {
      forall k | 0 <= k < |Groups(parts)| ensures SizedAtEnd(parts, Groups(parts)[k]) {
        EndIsSized(parts, Groups(parts)[k]);
      }
    } else {
      var i :| 0 <= i < |parts| - 1 && parts[i].size != 0 && parts[i + 1].size == 0
               && parts[i].bufIndex == parts[i + 1].bufIndex;
      ClosedIsPrefix(parts, i + 2, |parts|);
      var k := |Closed(parts, i + 1)|;
      assert Groups(parts)[k] == Closed(parts, i + 2)[k] == Group(OpenStart(parts, i), i + 2 - OpenStart(parts, i));
    }
  }

  lemma EndIsSized(parts: seq<Part>, g: Group)
    requires EndsOnce(parts, g) && ZerosApart(parts)
    ensures SizedAtEnd(parts, g)
  {
    var last := g.start + g.count - 1;
    forall j | g.start <= j < last && parts[j].size != 0 ensures parts[last].size != 0 {
      GroupSharesBuffer(parts, g, last - 1);
      assert parts[last - 1].size != 0;
    }
  }

  // ------------------------------------------------------------------------------------------------
  // Partial tensors
  // ------------------------------------------------------------------------------------------------

  /** No element shares its buffer with its successor. */
  predicate NoSharing(parts: seq<Part>) {
    forall i :: 0 <= i < |parts| - 1 ==> parts[i].bufIndex != parts[i + 1].bufIndex
  }

  /** Then element k is group k. */
  lemma {:induction false} SingleElementGroups(parts: seq<Part>, i: nat)
    requires i <= |parts| && NoSharing(parts)
    ensures OpenStart(parts, i) == i && |Closed(parts, i)| == i
    ensures forall k :: 0 <= k < i ==> Closed(parts, i)[k] == Group(k, 1)
  {
    if i > 0 { SingleElementGroups(parts, i - 1); }
  }

  // ------------------------------------------------------------------------------------------------
  // Record numbers for buffer numbers
  // ------------------------------------------------------------------------------------------------

  /** There are no more records than buffers exactly when sized runs and zero-sized elements together are no more. */
  lemma WithinBuffersIff(parts: seq<Part>, numBuf: nat)
    ensures |Groups(parts)| <= numBuf <==> Runs(parts, |parts|) + Zeros(parts, |parts|) <= numBuf
  {
    GroupCount(parts, |parts|);
  }

  /** The buffer numbers start at 0, and go up by one where they change and behind each zero-sized element. */
  predicate InOrder(parts: seq<Part>) {
    && (parts != [] ==> parts[0].bufIndex == 0)
    && forall i :: 0 <= i < |parts| - 1 ==>
         || parts[i + 1].bufIndex == parts[i].bufIndex + 1
         || (parts[i + 1].bufIndex == parts[i].bufIndex && parts[i].size != 0)
  }

  lemma {:induction false} OpenKeepsCount(parts: seq<Part>, i: nat)
    requires i <= |parts|
    ensures |Closed(parts, OpenStart(parts, i))| == |Closed(parts, i)|
  {
    if i > 0 { OpenKeepsCount(parts, i - 1); }
  }

  /** As many groups are closed before group `k` starts. */
  lemma {:induction false} ClosedAtStart(parts: seq<Part>, i: nat, k: nat)
    requires i <= |parts| && k < |Closed(parts, i)|
    ensures Closed(parts, i)[k].start <= |parts| && |Closed(parts, Closed(parts, i)[k].start)| == k
  {
    if k < |Closed(parts, i - 1)| { ClosedAtStart(parts, i - 1, k); } else { OpenKeepsCount(parts, i - 1); }
  }

  /** And none ends within it. */
  lemma {:induction false} ClosedWithin(parts: seq<Part>, g: Group, i: nat)
    requires EndsOnce(parts, g) && g.start <= i < g.start + g.count
    ensures |Closed(parts, i)| == |Closed(parts, g.start)|
    decreases i
  {
    if i > g.start {
      assert !EndsGroup(parts, i - 1);
      ClosedWithin(parts, g, i - 1);
    }
  }

  /** Every element's buffer has the number of its record. */
  predicate Numbered(parts: seq<Part>) {
    forall i :: 0 <= i < |parts| ==> parts[i].bufIndex == |Closed(parts, i)|
  }

  lemma {:induction false} InOrderIsNumbered(parts: seq<Part>, i: nat)
    requires InOrder(parts) && i < |parts|
    ensures parts[i].bufIndex == |Closed(parts, i)|
  {
    if i > 0 { InOrderIsNumbered(parts, i - 1); }
  }

  lemma NumberedIsInOrder(parts: seq<Part>)
    requires Numbered(parts)
    ensures InOrder(parts)
  {
    forall i | 0 <= i < |parts| - 1
      ensures parts[i + 1].bufIndex == parts[i].bufIndex + 1
              || (parts[i + 1].bufIndex == parts[i].bufIndex && parts[i].size != 0)
    {
      assert parts[i].bufIndex == |Closed(parts, i)| && parts[i + 1].bufIndex == |Closed(parts, i + 1)|;
    }
  }

  /** Record `k` is for buffer `k`, for all records, exactly when the buffer numbers are in order. */
  lemma RecordIsBufferIff(parts: seq<Part>)
    ensures (forall k :: 0 <= k < |Groups(parts)| ==>
               Groups(parts)[k].start < |parts| && parts[Groups(parts)[k].start].bufIndex == k)
            <==> InOrder(parts)
  {
    var gs := Groups(parts);
    GroupsPartition(parts);
    hide EndsGroup, OpenStart;
    if forall k :: 0 <= k < |gs| ==> gs[k].start < |parts| && parts[gs[k].start].bufIndex == k {
      forall i | 0 <= i < |parts| ensures parts[i].bufIndex == |Closed(parts, i)| {
        var k := GroupOf(gs, |gs|, i);
        GroupSharesBuffer(parts, gs[k], i);
        GroupSharesBuffer(parts, gs[k], gs[k].start);
        ClosedWithin(parts, gs[k], i);
        ClosedAtStart(parts, |parts|, k);
      }
      NumberedIsInOrder(parts);
    }
    if InOrder(parts) {
      forall k | 0 <= k < |gs| ensures gs[k].start < |parts| && parts[gs[k].start].bufIndex == k {
        assert EndsOnce(parts, gs[k]);
        ClosedAtStart(parts, |parts|, k);
        InOrderIsNumbered(parts, gs[k].start);
      }
    }
  }
}
