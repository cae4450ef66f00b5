/** The bindings parser: it writes the flat descriptor element by element, and fills the protocol buffer form. */
module BindingsParser {
  import opened Wrappers
  import opened ByteCodec
  import opened ChunkLayout
  import opened IoDescriptor
  import opened IoSets

  /** A data type without a format code makes the program throw; some networks make it read outside a variable. */
  datatype Outcome = Done | Thrown | OutOfBounds

  function Zeros(n: nat): (ps: seq<U64>)
    ensures |ps| == n
  {
    seq(n, _ => 0)
  }

  /** The buffer before the pointers are set. */
  function Unlinked(net: Network): (cs: seq<Chunk>)
    requires Describable(net) && Count(net) < TWO32
    ensures Aligned(cs) && |cs| == 2 * Count(net) + 1
  {
    Chunks(net, 0, Zeros(Count(net)))
  }

  /** What is in the buffer when the first `k` elements are written; the types of the mappings so far are known. */
  predicate WrittenUpTo(net: Network, k: nat, buffer: seq<Byte>)
    requires Count(net) < TWO32 && k <= 2 * Count(net) + 1
  {
    && |buffer| == EndOf(net, k)
    && (Describable(net) ==> buffer == Lay(Unlinked(net)[..k]))
  }

  predicate Named(net: Network) {
    forall i :: 0 <= i < Count(net) ==> BindingNo(net, i).name != []
  }

  predicate FormatsKnown(net: Network, n: nat)
    requires n <= Count(net)
  {
    forall i :: 0 <= i < n ==> Format(BindingNo(net, i).initial.dataType).Some?
  }

  /** The next element goes right behind the ones before it. */
  lemma NextElement(net: Network, k: nat, buffer: seq<Byte>, c: Chunk)
    requires Fits(net) && k <= 2 * Count(net) && WrittenUpTo(net, k, buffer)
    requires c.align == (if k <= Count(net) then 8 else 1) && |c.bytes| == EndOf(net, k + 1) - EndOf(net, k)
    requires Describable(net) ==> c == Unlinked(net)[k]
    ensures WrittenUpTo(net, k + 1, Place(buffer, c)) && |Place(buffer, c)| < 0x8000_0000
  {
    hide Lay, ChunkNo, NameOffset, Describable;
    AlignToSpec(EndOf(net, k), c.align);
    EndGrows(net, k + 1);
    if Describable(net) {
      var cs := Unlinked(net);
      assert cs[..k + 1] == cs[..k] + [c];
      LayAppend(cs[..k], c);
    }
  }

  lemma NameElement(net: Network, i: nat, buffer: seq<Byte>)
    requires Fits(net) && i < Count(net) && WrittenUpTo(net, Count(net) + 1 + i, buffer)
    ensures var c := Chunk(1, Stored(BindingNo(net, i).name));
            WrittenUpTo(net, Count(net) + 2 + i, Place(buffer, c)) && |Place(buffer, c)| < 0x8000_0000
  {
    hide Describable, Lay, Place, LE, Stored;
    var c := Chunk(1, Stored(BindingNo(net, i).name));
    FirstName(net);
    assert NameOffset(net, i + 1) == NameOffset(net, i) + |c.bytes|;
    if Describable(net) { assert Unlinked(net)[Count(net) + 1 + i] == c; }
    NextElement(net, Count(net) + 1 + i, buffer, c);
  }

  lemma EndGrows(net: Network, k: nat)
    requires Fits(net) && k <= 2 * Count(net) + 1
    ensures EndOf(net, k) <= NameOffset(net, Count(net))
  {
    if k > Count(net) { NameOffsetGrows(net, k - 1 - Count(net)); } else { NameOffsetGrows(net, 0); }
  }

  /** Setting a name pointer in the buffer. */
  lemma LinkName(net: Network, table: U64, names: seq<U64>, i: nat, v: U64)
    requires Describable(net) && Fits(net) && |names| == Count(net) && i < Count(net)
    ensures var s, at := Lay(Chunks(net, table, names)), TABLE_OFFSET + MAPPING_SIZE * i;
            at + 8 <= |s| && Lay(Chunks(net, table, names[i := v])) == Patch(s, at, LE(v, 8))
  {
    hide Lay, Offset, EncMapping, LE, Patch, MappingNo, NameOffset, Stored;
    var cs, ds := Chunks(net, table, names), Chunks(net, table, names[i := v]);
    LayoutIs(net, table, names, i + 1);
    PatchInChunk(cs, i + 1, 0, LE(v, 8));
    MappingPointer(MappingNo(net, i, names[i]), v);
    MappingWithName(net, i, names[i], v);
    assert ds == Updated(cs, i + 1, Patch(cs[i + 1].bytes, 0, LE(v, 8)));
  }

  lemma MappingWithName(net: Network, i: nat, p: U64, v: U64)
    requires Describable(net) && i < Count(net) < TWO32
    ensures MappingNo(net, i, v) == MappingNo(net, i, p).(bufferName := v)
  {
  }

  /** Setting the header's pointer to the mappings. */
  lemma LinkTable(net: Network, table: U64, names: seq<U64>, v: U64)
    requires Describable(net) && Fits(net) && |names| == Count(net)
    ensures var s := Lay(Chunks(net, table, names));
            16 <= |s| && Lay(Chunks(net, v, names)) == Patch(s, 8, LE(v, 8))
  {
    hide Lay, Offset, EncInfo, LE, Patch, MappingNo, Describable, NameOffset, Stored;
    var cs, ds := Chunks(net, table, names), Chunks(net, v, names);
    LayoutIs(net, table, names, 0);
    PatchInChunk(cs, 0, 8, LE(v, 8));
    InfoPointer(Count(net), table);
    assert ds == Updated(cs, 0, Patch(cs[0].bytes, 8, LE(v, 8)));
  }

  /** The address of an offset in a buffer; none behind its end. */
  function ComputeAddr(base: nat, size: nat, offset: nat): Option<nat> {
    if offset > size then None else Some(base + offset)
  }

  class QBindingsParser {
    var ioDescBuffer: seq<Byte>
    var ioSets: seq<IoSet>
    var selectedSet: Option<IoSet>

    constructor ()
      ensures ioDescBuffer == [] && ioSets == [] && selectedSet == None
    {
      ioDescBuffer, ioSets, selectedSet := [], [], None;
    }

    // ----------------------------------------------------------------------------------------------
    // Flat form
    // ----------------------------------------------------------------------------------------------

    /** Appends the bytes at the next aligned offset; the result is where they end, not where they start. */
    method WriteBindingElement(bytes: seq<Byte>, align: nat) returns (end: nat)
      requires align >= 1 && |Place(ioDescBuffer, Chunk(align, bytes))| < 0x8000_0000
      modifies `ioDescBuffer
      ensures ioDescBuffer == Place(old(ioDescBuffer), Chunk(align, bytes)) && end == |ioDescBuffer|
    {
      var size := |ioDescBuffer|;
      var offset := AlignTo(size, align);
      ioDescBuffer := ioDescBuffer + Padding(size, align) + seq(|bytes|, _ => 0);
      ioDescBuffer := ioDescBuffer[..offset] + bytes + ioDescBuffer[offset + |bytes|..];
      return |ioDescBuffer|;
    }

    /** The flat form multiplies the dimensions first. */
    static method FlatSize(t: Tensor) returns (bufSize: U32)
      ensures bufSize == SizeOf(t)
    {
      bufSize := 1;
      for j := 0 to |t.dims|
        invariant TimesFrom(1, t.dims, 0) == TimesFrom(bufSize, t.dims, j)
      {
        if t.dims[j] != 0 { bufSize := bufSize * t.dims[j] % TWO32; }
      }
      bufSize := bufSize * TypeSize(t.dataType) % TWO32;
      BothOrdersGiveSize(t);
    }

    /** The protocol buffer form starts from the size of an element. */
    static method BindingSize(t: Tensor) returns (bindingSize: U32)
      ensures bindingSize == SizeOf(t)
    {
      bindingSize := TypeSize(t.dataType);
      for j := 0 to |t.dims|
        invariant TimesFrom(TypeSize(t.dataType), t.dims, 0) == TimesFrom(bindingSize, t.dims, j)
      {
        if t.dims[j] != 0 { bindingSize := bindingSize * t.dims[j] % TWO32; }
      }
      BothOrdersGiveSize(t);
    }

    /** Writes one mapping without its name; fails on a data type that has no format. */
    method WriteMapping(b: Binding, t: Tensor, ioType: U32, index: U32, ghost net: Network) returns (ok: bool)
      requires Fits(net) && index < Count(net) && WrittenUpTo(net, index + 1, ioDescBuffer)
      requires b == BindingNo(net, index) && t == UserTensor(net, index)
      requires ioType == if index < |net.inputs| then INPUT else OUTPUT
      modifies `ioDescBuffer
      ensures ok <==> Format(b.initial.dataType).Some?
      ensures ok ==> WrittenUpTo(net, index + 2, ioDescBuffer)
    {
      hide Describable, NameOffset, Stored, Lay, EncMapping, Place, SizeOf;
      var size := FlatSize(t);
      var format := Format(b.initial.dataType);
      if format.None? { return false; }
      var m := Mapping(0, index, ioType, size, if b.isPartialAllowed then 1 else 0, format.value);
      if Describable(net) { assert Unlinked(net)[index + 1] == Chunk(8, EncMapping(m)); }
      NextElement(net, index + 1, ioDescBuffer, Chunk(8, EncMapping(m)));
      var _ := WriteBindingElement(EncMapping(m), 8);
      return true;
    }

    /**
     Writes one name, filled with NULs to whole words. For an unnamed binding the code copies eight pointers from a
     variable that holds one.
     */
    method WriteName(b: Binding, ghost i: nat, ghost net: Network) returns (ok: bool, end: nat)
      requires Fits(net) && i < Count(net) && WrittenUpTo(net, Count(net) + 1 + i, ioDescBuffer)
      requires b == BindingNo(net, i)
      modifies `ioDescBuffer
      ensures ok <==> b.name != []
      ensures ok ==> WrittenUpTo(net, Count(net) + 2 + i, ioDescBuffer) && end == |ioDescBuffer|
    {
      if b.name == [] { return false, 0; }
      NameElement(net, i, ioDescBuffer);
      hide Describable, Place, WrittenUpTo, Fits;
      end := WriteBindingElement(Stored(b.name), 1);
      ok := true;
    }

    method WriteMappings(net: Network) returns (ok: bool)
      requires Fits(net) && WrittenUpTo(net, 1, ioDescBuffer)
      modifies `ioDescBuffer
      ensures ok <==> FormatsKnown(net, Count(net))
      ensures ok ==> WrittenUpTo(net, Count(net) + 1, ioDescBuffer)
    {
      hide WrittenUpTo, NameOffset;
      var ioBufferIndex := 0;
      for i := 0 to |net.inputs|
        invariant ioBufferIndex == i && WrittenUpTo(net, ioBufferIndex + 1, ioDescBuffer)
        invariant FormatsKnown(net, ioBufferIndex)
      {
        ok := WriteMapping(net.inputs[i], net.inputs[i].initial, INPUT, ioBufferIndex, net);
        if !ok { return; }
        ioBufferIndex := ioBufferIndex + 1;
      }
      for i := 0 to |net.outputs|
        invariant ioBufferIndex == |net.inputs| + i && WrittenUpTo(net, ioBufferIndex + 1, ioDescBuffer)
        invariant FormatsKnown(net, ioBufferIndex)
      {
        ok := WriteMapping(net.outputs[i], net.outputs[i].transformed, OUTPUT, ioBufferIndex, net);
        if !ok { return; }
        ioBufferIndex := ioBufferIndex + 1;
      }
      return true;
    }

    /** Writes the names and notes where each starts. */
    method WriteNames(net: Network) returns (ok: bool, offsets: seq<nat>)
      requires Fits(net) && WrittenUpTo(net, Count(net) + 1, ioDescBuffer)
      modifies `ioDescBuffer
      ensures ok <==> Named(net)
      ensures ok ==> |offsets| == Count(net) && forall i :: 0 <= i < Count(net) ==> offsets[i] == NameOffset(net, i)
      ensures ok ==> WrittenUpTo(net, 2 * Count(net) + 1, ioDescBuffer)
    {
      hide Lay, Unlinked, Describable, NameOffset, Stored;
      FirstName(net);
      var offset := |ioDescBuffer|;
      offsets := [];
      for i := 0 to |net.inputs|
        invariant |offsets| == i && offset == |ioDescBuffer|
        invariant WrittenUpTo(net, Count(net) + 1 + i, ioDescBuffer)
        invariant forall j :: 0 <= j < i ==> offsets[j] == NameOffset(net, j)
        invariant forall j :: 0 <= j < i ==> BindingNo(net, j).name != []
      {
        offsets := offsets + [offset];
        ok, offset := WriteName(net.inputs[i], i, net);
        if !ok { return; }
      }
      for i := 0 to |net.outputs|
        invariant |offsets| == |net.inputs| + i && offset == |ioDescBuffer|
        invariant WrittenUpTo(net, Count(net) + 1 + |net.inputs| + i, ioDescBuffer)
        invariant forall j :: 0 <= j < |offsets| ==> offsets[j] == NameOffset(net, j)
        invariant forall j :: 0 <= j < |offsets| ==> BindingNo(net, j).name != []
      {
        offsets := offsets + [offset];
        ok, offset := WriteName(net.outputs[i], |net.inputs| + i, net);
        if !ok { return; }
      }
      ok := true;
    }

    /** Replaces the recorded offsets by addresses, in place. */
    method Link(net: Network, base: nat, offsets: seq<nat>)
      requires Describable(net) && Fits(net) && base + NameOffset(net, Count(net)) < TWO64
      requires ioDescBuffer == Lay(Unlinked(net))
      requires |offsets| == Count(net) && forall i :: 0 <= i < Count(net) ==> offsets[i] == NameOffset(net, i)
      modifies `ioDescBuffer
      ensures ioDescBuffer == FlatImage(net, base)
    {
      hide Lay, Chunks, Describable, NameOffset, LE, Patch;
      ghost var names: seq<U64>, table: U64 := Zeros(Count(net)), (base + TABLE_OFFSET) % TWO64;
      NameOffsetGrows(net, Count(net));
      LinkTable(net, 0, names, table);
      var mappings := ComputeAddr(base, |ioDescBuffer|, TABLE_OFFSET);
      assert mappings.Some?;
      ioDescBuffer := Patch(ioDescBuffer, 8, LE(mappings.value, 8));
      for i := 0 to Count(net)
        invariant |names| == Count(net) && ioDescBuffer == Lay(Chunks(net, table, names))
        invariant names[..i] == NamePointers(net, base)[..i]
      {
        NameOffsetGrows(net, i);
        SizeOfChunks(net, table, names);
        var name := ComputeAddr(base, |ioDescBuffer|, offsets[i]);
        assert name.Some?;
        LinkName(net, table, names, i, name.value);
        ioDescBuffer := Patch(ioDescBuffer, TABLE_OFFSET + MAPPING_SIZE * i, LE(name.value, 8));
        names := names[i := name.value];
      }
      assert names == NamePointers(net, base);
    }

    /** The flat descriptor of the network, in a buffer that ends up at address `base`. */
    method GenerateIoDesc(net: Network, base: nat) returns (r: Outcome)
      requires ioDescBuffer == [] && Fits(net) && base + NameOffset(net, Count(net)) < TWO64
      modifies `ioDescBuffer
      ensures r == Thrown <==> !FormatsKnown(net, Count(net))
      ensures r == Done <==> FormatsKnown(net, Count(net)) && Named(net)
      ensures r == Done ==> Describable(net) && ioDescBuffer == FlatImage(net, base)
    {
      hide Lay, FlatImage, NameOffset, WrittenUpTo, Place;
      StartWritten(net);
      var _ := WriteBindingElement(EncInfo(Count(net), 0), 8);
      var ok := WriteMappings(net);
      if !ok { return Thrown; }
      var offsets;
      ok, offsets := WriteNames(net);
      if !ok { return OutOfBounds; }
      AllWritten(net, ioDescBuffer);
      Link(net, base, offsets);
      return Done;
    }

    // ----------------------------------------------------------------------------------------------
    // Protocol buffer form
    // ----------------------------------------------------------------------------------------------

    static method CreateBinding(b: Binding, isInput: bool, index: U32, t: Tensor, isValid: bool) returns (r: IoBinding)
      ensures r == Described(b, isInput, index, t, isValid)
    {
      var size := BindingSize(t);
      return IoBinding(b.name, index, isInput, t.dataType, t.dims, size, b.isPartialAllowed, isValid);
    }

    /** Does any of the bindings have the transform? */
    static method HasAny(bindings: seq<Binding>, kind: TransformKind) returns (found: bool)
      ensures found <==> exists i :: 0 <= i < |bindings| && HasTransform(bindings[i], kind)
    {
      for i := 0 to |bindings|
        invariant forall k :: 0 <= k < i ==> !HasTransform(bindings[k], kind)
      {
        var ts := bindings[i].transforms;
        for j := 0 to |ts|
          invariant forall k :: 0 <= k < j ==> ts[k].kind != kind
        {
          if ts[j].kind == kind {
            assert HasTransform(bindings[i], kind);
            return true;
          }
        }
      }
      return false;
    }

    /** Where the binding is tapped: at the transform, or for an output before it unless it is the DMA copy. */
    static method FindTransform(b: Binding, isInput: bool, kind: TransformKind) returns (t: Tap)
      ensures t == TappedAt(b, isInput, kind)
    {
      for i := 0 to |b.transforms|
        invariant i <= FirstOf(b.transforms, kind)
      {
        if b.transforms[i].kind == kind {
          if isInput || kind == CopyDmaBuffer { return At(b.transforms[i].tensor); }
          return if i > 0 then At(b.transforms[i - 1].tensor) else OutOfRange;
        }
      }
      return NotThere;
    }

    static method CreateDefaultSet(net: Network) returns (s: IoSet)
      requires Count(net) < TWO32
      ensures s == DefaultSet(net)
    {
      hide Described;
      var bindings, index := [], 0;
      for i := 0 to |net.inputs|
        invariant index == i == |bindings| && forall k :: 0 <= k < index ==> bindings[k] == DefaultBinding(net, k)
      {
        var b := net.inputs[i];
        var r := CreateBinding(b, true, index, b.initial, true);
        bindings, index := bindings + [r], index + 1;
      }
      for i := 0 to |net.outputs|
        invariant index == |net.inputs| + i == |bindings|
        invariant forall k :: 0 <= k < index ==> bindings[k] == DefaultBinding(net, k)
      {
        var b := net.outputs[i];
        var r := CreateBinding(b, false, index, b.transformed, true);
        bindings, index := bindings + [r], index + 1;
      }
      return IoSet("default", bindings);
    }

    static method CreateTappedBinding(net: Network, s: Search, i: nat, b: Binding, isInput: bool, user: Tensor)
      returns (r: Option<IoBinding>)
      requires i < Count(net) < TWO32
      requires b == BindingNo(net, i) && isInput == (i < |net.inputs|) && user == UserTensor(net, i)
      ensures r == if TappedAt(b, isInput, KindOf(s, isInput)) == OutOfRange then None
                   else Some(TappedBinding(net, s, i))
    {
      var t := FindTransform(b, isInput, if isInput then s.inputKind else s.outputKind);
      if t == OutOfRange { return None; }
      var binding;
      if t.At? {
        binding := CreateBinding(b, isInput, i, t.tensor, true);
      } else {
        binding := CreateBinding(b, isInput, i, user, false);
      }
      return Some(binding);
    }

    static method CreateTappedSet(net: Network, ss: nat) returns (s: Option<IoSet>)
      requires Count(net) < TWO32 && ss < |SEARCH_SPACE|
      ensures s == if InRange(net, ss) then Some(TappedSet(net, SEARCH_SPACE[ss])) else None
    {
      hide TappedBinding, TappedAt;
      var search, bindings, bindingIndex := SEARCH_SPACE[ss], [], 0;
      InputsInRange();
      for i := 0 to |net.inputs|
        invariant bindingIndex == i == |bindings|
        invariant forall k :: 0 <= k < bindingIndex ==> bindings[k] == TappedBinding(net, search, k)
      {
        var r := CreateTappedBinding(net, search, bindingIndex, net.inputs[i], true, net.inputs[i].initial);
        bindings, bindingIndex := bindings + [r.value], bindingIndex + 1;
      }
      for i := 0 to |net.outputs|
        invariant bindingIndex == |net.inputs| + i == |bindings|
        invariant forall k :: 0 <= k < bindingIndex ==> bindings[k] == TappedBinding(net, search, k)
        invariant forall k :: 0 <= k < i ==> TappedAt(net.outputs[k], false, search.outputKind) != OutOfRange
      {
        var r := CreateTappedBinding(net, search, bindingIndex, net.outputs[i], false, net.outputs[i].transformed);
        if r.None? { return None; }
        bindings, bindingIndex := bindings + [r.value], bindingIndex + 1;
      }
      assert bindings == TappedSet(net, search).bindings;
      return Some(IoSet(search.name, bindings));
    }

    /** Fills the list of I/O sets; the default set is the selected one. */
    method GenerateIoDescPb(net: Network) returns (r: Outcome)
      requires Count(net) < TWO32
      modifies `ioSets, `selectedSet
      ensures r == if Preceded(net) then Done else OutOfBounds
      ensures selectedSet == Some(DefaultSet(net)) && (r == Done ==> ioSets == AllSets(net))
    {
      hide DefaultBinding, TappedBinding, TappedAt, Occurs;
      var defaultSet := CreateDefaultSet(net);
      ioSets := [defaultSet];
      selectedSet := Some(defaultSet);
      for ss := 0 to |SEARCH_SPACE|
        invariant ioSets == Sets(net, ss) && selectedSet == Some(DefaultSet(net))
        invariant forall k :: 0 <= k < ss ==> InRange(net, k)
      {
        var inTransFound := HasAny(net.inputs, SEARCH_SPACE[ss].inputKind);
        var outTransFound := HasAny(net.outputs, SEARCH_SPACE[ss].outputKind);
        OccursIf(net, ss, inTransFound, outTransFound);
        if inTransFound || outTransFound {
          var s := CreateTappedSet(net, ss);
          if s.None? {
            NotPreceded(net, ss);
            return OutOfBounds;
          }
          ioSets := ioSets + [s.value];
        }
      }
      AllInRange(net);
      return Done;
    }
  }

  /** No output is tapped in front of its first transform in this search. */
  predicate InRange(net: Network, ss: nat)
    requires ss < |SEARCH_SPACE|
  {
    forall k :: 0 <= k < |net.outputs| ==> TappedAt(net.outputs[k], false, SEARCH_SPACE[ss].outputKind) != OutOfRange
  }

  lemma NotPreceded(net: Network, ss: nat)
    requires ss < |SEARCH_SPACE| && !InRange(net, ss)
    ensures !Preceded(net)
  {
  }

  lemma AllInRange(net: Network)
    requires forall k :: 0 <= k < |SEARCH_SPACE| ==> InRange(net, k)
    ensures Preceded(net)
  {
    hide TappedAt;
    forall i, k | 0 <= i < |net.outputs| && 0 <= k < |SEARCH_SPACE|
      ensures TappedAt(net.outputs[i], false, SEARCH_SPACE[k].outputKind) != OutOfRange
    {
      assert InRange(net, k);
    }
  }

  lemma InputsInRange()
    ensures forall b, kind :: TappedAt(b, true, kind) != OutOfRange
  {
  }

  /** Where a search does not occur, nothing is tapped. */
  lemma OccursIf(net: Network, ss: nat, inFound: bool, outFound: bool)
    requires ss < |SEARCH_SPACE|
    requires inFound <==> exists i :: 0 <= i < |net.inputs| && HasTransform(net.inputs[i], SEARCH_SPACE[ss].inputKind)
    requires outFound <==>
      exists i :: 0 <= i < |net.outputs| && HasTransform(net.outputs[i], SEARCH_SPACE[ss].outputKind)
    ensures Occurs(net, SEARCH_SPACE[ss]) <==> inFound || outFound
    ensures !outFound ==> InRange(net, ss)
  {
    forall k | 0 <= k < |net.outputs| && !outFound
      ensures TappedAt(net.outputs[k], false, SEARCH_SPACE[ss].outputKind) != OutOfRange
    {
      assert !HasTransform(net.outputs[k], SEARCH_SPACE[ss].outputKind);
    }
  }

  lemma StartWritten(net: Network)
    requires Fits(net)
    ensures var c := Chunk(8, EncInfo(Count(net), 0));
            WrittenUpTo(net, 1, Place([], c)) && |Place([], c)| < 0x8000_0000
  {
    hide WrittenUpTo, EncInfo, NameOffset, Describable, Place;
    var c := Chunk(8, EncInfo(Count(net), 0));
    NothingWritten(net);
    if Describable(net) { assert Unlinked(net)[0] == c; }
    NextElement(net, 0, [], c);
  }

  lemma NothingWritten(net: Network)
    requires Fits(net)
    ensures WrittenUpTo(net, 0, [])
  {
    hide ChunkNo;
  }

  lemma AllWritten(net: Network, buffer: seq<Byte>)
    requires Fits(net) && Named(net) && FormatsKnown(net, Count(net))
    requires WrittenUpTo(net, 2 * Count(net) + 1, buffer)
    ensures Describable(net) && buffer == Lay(Unlinked(net))
  {
    hide Lay, Chunks, NameOffset;
    var cs := Unlinked(net);
    assert cs[..|cs|] == cs;
  }

  lemma SizeOfChunks(net: Network, table: U64, names: seq<U64>)
    requires Describable(net) && Fits(net) && |names| == Count(net)
    ensures |Lay(Chunks(net, table, names))| == NameOffset(net, Count(net))
  {
    hide Lay, ChunkNo, Describable, NameOffset;
    var cs := Chunks(net, table, names);
    LayoutIs(net, table, names, |cs|);
    FirstName(net);
    assert cs[..|cs|] == cs;
  }
}
