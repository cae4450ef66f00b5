/**
 The I/O descriptor of a network in its protocol buffer form: the default set of bindings, and one set for each
 transformation at which an application may tap the data.
 */
module IoSets {
  import opened Wrappers
  import opened ByteCodec
  import opened CStrings
  import opened IoDescriptor

  datatype IoBinding = IoBinding(
    name: seq<Byte>, index: U32, isInput: bool, dataType: DataType, dims: seq<U32>, size: U32,
    isPartialBufAllowed: bool, isValid: bool)

  datatype IoSet = IoSet(name: string, bindings: seq<IoBinding>)

  /** A transformation that gets its own set, and how it shows in inputs and outputs. */
  datatype Search = Search(name: string, inputKind: TransformKind, outputKind: TransformKind)

  const SEARCH_SPACE: seq<Search> := [
    Search("quantize", Quantize, Dequantize), Search("transpose", Transpose, Transpose),
    Search("d32convert", ConvertToD32, ConvertFromD32), Search("convert", Convert, Convert),
    Search("dma", CopyDmaBuffer, CopyDmaBuffer)]

  /** The first transform of this kind, or the number of transforms. */
  function FirstOf(ts: seq<Transform>, kind: TransformKind): (j: nat)
    ensures j <= |ts| && (forall i :: 0 <= i < j ==> ts[i].kind != kind) && (j < |ts| ==> ts[j].kind == kind)
  {
    if ts == [] || ts[0].kind == kind then 0
    else
      var j := FirstOf(ts[1..], kind) + 1;
      assert forall i :: 0 < i < j ==> ts[i] == ts[1..][i - 1];
      j
  }

  function KindOf(s: Search, isInput: bool): TransformKind { if isInput then s.inputKind else s.outputKind }

  predicate HasTransform(b: Binding, kind: TransformKind) { FirstOf(b.transforms, kind) < |b.transforms| }

  /** For an output every searched transform but the DMA copy has one before it, whose tensor is taken. */
  predicate Preceded(net: Network) {
    forall i, k :: 0 <= i < |net.outputs| && 0 <= k < |SEARCH_SPACE| ==>
      TappedAt(net.outputs[i], false, SEARCH_SPACE[k].outputKind) != OutOfRange
  }

  /** Where a binding is tapped: nowhere, in front of its first transform, or at a tensor. */
  datatype Tap = NotThere | OutOfRange | At(tensor: Tensor)

  /** The tensor at which this transformation is tapped, if the binding has it. */
  function TappedAt(b: Binding, isInput: bool, kind: TransformKind): Tap {
    var j := FirstOf(b.transforms, kind);
    if j == |b.transforms| then NotThere
    else if isInput || kind == CopyDmaBuffer then At(b.transforms[j].tensor)
    else if j > 0 then At(b.transforms[j - 1].tensor)
    else OutOfRange
  }

  /** The kinds that are looked for in outputs, but for the DMA copy. */
  predicate TappedBefore(kind: TransformKind) { kind in {Dequantize, Transpose, ConvertFromD32, Convert} }

  /** No element in front of the first one is read exactly when no output starts with such a transform. */
  lemma PrecededIff(net: Network)
    ensures Preceded(net) <==> forall i :: 0 <= i < |net.outputs| && net.outputs[i].transforms != [] ==>
                                 !TappedBefore(net.outputs[i].transforms[0].kind)
  {
    SearchedKinds();
    forall i, k | 0 <= i < |net.outputs| && 0 <= k < |SEARCH_SPACE|
      ensures var ts, kind := net.outputs[i].transforms, SEARCH_SPACE[k].outputKind;
              TappedAt(net.outputs[i], false, kind) == OutOfRange <==>
                ts != [] && ts[0].kind == kind && kind != CopyDmaBuffer
    {
    }
  }

  lemma SearchedKinds()
    ensures forall kind :: TappedBefore(kind) <==>
      exists k :: 0 <= k < |SEARCH_SPACE| && SEARCH_SPACE[k].outputKind == kind && kind != CopyDmaBuffer
  {
    assert SEARCH_SPACE[0].outputKind == Dequantize && SEARCH_SPACE[1].outputKind == Transpose;
    assert SEARCH_SPACE[2].outputKind == ConvertFromD32 && SEARCH_SPACE[3].outputKind == Convert;
  }

  function Described(b: Binding, isInput: bool, index: U32, t: Tensor, isValid: bool): IoBinding {
    IoBinding(b.name, index, isInput, t.dataType, t.dims, SizeOf(t), b.isPartialAllowed, isValid)
  }

  /** Binding `i` of the default set. */
  function DefaultBinding(net: Network, i: nat): IoBinding
    requires i < Count(net) < TWO32
  {
    Described(BindingNo(net, i), i < |net.inputs|, i, UserTensor(net, i), true)
  }

  /** Binding `i` of the set of a transformation: tapped there, or as the user sees it and marked invalid. */
  function TappedBinding(net: Network, s: Search, i: nat): IoBinding
    requires i < Count(net) < TWO32
  {
    var b, isInput := BindingNo(net, i), i < |net.inputs|;
    match TappedAt(b, isInput, KindOf(s, isInput))
    case At(t) => Described(b, isInput, i, t, true)
    case _ => DefaultBinding(net, i).(isValid := false)
  }

  function DefaultSet(net: Network): IoSet
    requires Count(net) < TWO32
  {
    IoSet("default", seq(Count(net), i requires 0 <= i < Count(net) => DefaultBinding(net, i)))
  }

  function TappedSet(net: Network, s: Search): IoSet
    requires Count(net) < TWO32
  {
    IoSet(s.name, seq(Count(net), i requires 0 <= i < Count(net) => TappedBinding(net, s, i)))
  }

  /** Some binding goes through the transformation. */
  predicate Occurs(net: Network, s: Search) {
    || (exists i :: 0 <= i < |net.inputs| && HasTransform(net.inputs[i], s.inputKind))
    || (exists i :: 0 <= i < |net.outputs| && HasTransform(net.outputs[i], s.outputKind))
  }

  /** The sets of the first `k` transformations, behind the default set. */
  function Sets(net: Network, k: nat): seq<IoSet>
    requires Count(net) < TWO32 && k <= |SEARCH_SPACE|
  {
    if k == 0 then [DefaultSet(net)]
    else if Occurs(net, SEARCH_SPACE[k - 1]) then Sets(net, k - 1) + [TappedSet(net, SEARCH_SPACE[k - 1])]
    else Sets(net, k - 1)
  }

  function AllSets(net: Network): seq<IoSet>
    requires Count(net) < TWO32
  {
    Sets(net, |SEARCH_SPACE|)
  }

  // ------------------------------------------------------------------------------------------------
  // Properties
  // ------------------------------------------------------------------------------------------------

  /** The set lists every binding of the network at its own index. */
  predicate ListsAll(net: Network, s: IoSet) {
    && |s.bindings| == Count(net)
    && forall i :: 0 <= i < Count(net) ==>
         && s.bindings[i].name == BindingNo(net, i).name && s.bindings[i].index == i
         && s.bindings[i].isInput == (i < |net.inputs|)
         && s.bindings[i].isPartialBufAllowed == BindingNo(net, i).isPartialAllowed
  }

  lemma DefaultListsAll(net: Network)
    requires Count(net) < TWO32
    ensures ListsAll(net, DefaultSet(net))
  {
    hide BindingNo, UserTensor, SizeOf;
  }

  lemma TappedListsAll(net: Network, s: Search)
    requires Count(net) < TWO32
    ensures ListsAll(net, TappedSet(net, s))
  {
    hide BindingNo, UserTensor, SizeOf, TappedAt;
  }

  /** Every set has the same names and indices. */
  lemma {:induction false} EverySetListsAll(net: Network, k: nat, j: nat)
    requires Count(net) < TWO32 && k <= |SEARCH_SPACE| && j < |Sets(net, k)|
    ensures ListsAll(net, Sets(net, k)[j])
  {
    hide ListsAll, Occurs, DefaultSet, TappedSet;
    if k == 0 {
      DefaultListsAll(net);
    } else if j < |Sets(net, k - 1)| {
      EverySetListsAll(net, k - 1, j);
    } else {
      TappedListsAll(net, SEARCH_SPACE[k - 1]);
    }
  }

  /** There is a set of this name exactly when the transformation occurs, and then it is the tapped one. */
  lemma {:induction false} SetExistsIff(net: Network, k: nat, n: nat)
    requires Count(net) < TWO32 && k < n <= |SEARCH_SPACE|
    ensures var s := SEARCH_SPACE[k];
            && ((exists j :: 0 <= j < |Sets(net, n)| && Sets(net, n)[j].name == s.name) <==> Occurs(net, s))
            && (TappedSet(net, s) in Sets(net, n) <==> Occurs(net, s))
  {
    hide Occurs, TappedBinding, DefaultBinding;
    var s := SEARCH_SPACE[k];
    NamesDiffer();
    if n == k + 1 {
      forall j | 0 <= j < |Sets(net, k)| ensures Sets(net, k)[j].name != s.name { EarlierNames(net, k, k, j); }
      if Occurs(net, s) { assert Sets(net, n)[|Sets(net, k)|].name == s.name; }
    } else {
      SetExistsIff(net, k, n - 1);
      var earlier, later := Sets(net, n - 1), Sets(net, n);
      if Occurs(net, s) {
        var j :| 0 <= j < |earlier| && earlier[j].name == s.name;
        assert later[j].name == s.name;
      }
      if j :| 0 <= j < |later| && later[j].name == s.name {
        assert earlier[j].name == s.name;
      }
    }
  }

  lemma NamesDiffer()
    ensures forall j, k :: 0 <= j < k < |SEARCH_SPACE| ==> SEARCH_SPACE[j].name != SEARCH_SPACE[k].name
    ensures forall k :: 0 <= k < |SEARCH_SPACE| ==> SEARCH_SPACE[k].name != "default"
  {
    assert "quantize"[0] != "transpose"[0] && |"convert"| == 7 && |"default"| == 7 && "convert"[0] != "default"[0];
    assert |"dma"| == 3 && |"quantize"| == 8 && |"transpose"| == 9 && |"d32convert"| == 10;
  }

  lemma {:induction false} EarlierNames(net: Network, n: nat, k: nat, j: nat)
    requires Count(net) < TWO32 && n <= k < |SEARCH_SPACE| && j < |Sets(net, n)|
    ensures Sets(net, n)[j].name != SEARCH_SPACE[k].name
  {
    NamesDiffer();
    if n > 0 && j < |Sets(net, n - 1)| { EarlierNames(net, n - 1, k, j); }
  }

  /** In a transformation's set a binding is valid exactly when it goes through the transformation. */
  lemma ValidIff(net: Network, k: nat, i: nat)
    requires k < |SEARCH_SPACE| && i < Count(net) < TWO32
    ensures var b, kind := BindingNo(net, i), KindOf(SEARCH_SPACE[k], i < |net.inputs|);
            TappedBinding(net, SEARCH_SPACE[k], i).isValid
            <==> HasTransform(b, kind) && !(i >= |net.inputs| && b.transforms[0].kind == kind && TappedBefore(kind))
  {
    SearchedKinds();
    if i >= |net.inputs| { assert net.outputs[i - |net.inputs|] == BindingNo(net, i); }
  }

  /** The binding has the type, the dimensions and the size of this tensor. */
  predicate Describes(b: IoBinding, t: Tensor) {
    b.dataType == t.dataType && b.dims == t.dims && b.size == SizeOf(t)
  }

  /** The first transform of a kind is at `j`. */
  predicate FirstAt(ts: seq<Transform>, kind: TransformKind, j: nat) {
    j < |ts| && ts[j].kind == kind && forall m :: 0 <= m < j ==> ts[m].kind != kind
  }

  lemma FirstOfIs(ts: seq<Transform>, kind: TransformKind)
    ensures forall j: nat :: FirstAt(ts, kind, j) ==> j == FirstOf(ts, kind)
    ensures (forall m :: 0 <= m < |ts| ==> ts[m].kind != kind) ==> FirstOf(ts, kind) == |ts|
  {
  }

  /** The default set describes an input before, and an output after all its transforms. */
  lemma DefaultDescribes(net: Network, i: nat)
    requires i < Count(net) < TWO32
    ensures var b, d := BindingNo(net, i), DefaultSet(net).bindings[i];
            d.isValid && Describes(d, if i < |net.inputs| then b.initial else b.transformed)
  {
    hide SizeOf;
  }

  /**
   A transformation's set describes an input where it leaves its first such transform, and an output where it enters
   it, that is with the tensor of the transform before; a DMA copy is described where it is left even in an output.
   A binding without such a transform is described as in the default set.
   */
  lemma TappedDescribes(net: Network, k: nat, i: nat)
    requires k < |SEARCH_SPACE| && i < Count(net) < TWO32
    ensures var b, isInput, s := BindingNo(net, i), i < |net.inputs|, SEARCH_SPACE[k];
            var kind := if isInput then s.inputKind else s.outputKind;
            var t := TappedSet(net, s).bindings[i];
            && (forall j: nat :: FirstAt(b.transforms, kind, j) ==>
                  && (isInput || kind == CopyDmaBuffer ==> Describes(t, b.transforms[j].tensor))
                  && (!isInput && kind != CopyDmaBuffer && j > 0 ==> Describes(t, b.transforms[j - 1].tensor)))
            && ((forall m :: 0 <= m < |b.transforms| ==> b.transforms[m].kind != kind) ==>
                  Describes(t, if isInput then b.initial else b.transformed))
  {
    var b, s := BindingNo(net, i), SEARCH_SPACE[k];
    FirstOfIs(b.transforms, KindOf(s, i < |net.inputs|));
    DefaultDescribes(net, i);
    hide SizeOf, FirstOf, DefaultSet;
    assert DefaultSet(net).bindings[i] == DefaultBinding(net, i) by {
      hide DefaultBinding, BindingNo;
      DefaultIs(net, i);
    }
    assert TappedSet(net, s).bindings[i] == TappedBinding(net, s, i);
  }

  lemma DefaultIs(net: Network, i: nat)
    requires i < Count(net) < TWO32
    ensures DefaultSet(net).bindings[i] == DefaultBinding(net, i)
  {
    hide DefaultBinding, BindingNo;
  }

  /** The flat form and the default set agree on name, index, size and partial flag of every binding. */
  lemma FlatAgreesWithDefault(net: Network, base: nat, i: nat)
    requires Describable(net) && Fits(net) && base + NameOffset(net, Count(net)) < TWO64 && i < Count(net)
    ensures var d := DefaultSet(net).bindings[i];
            var r := ReadMapping(FlatImage(net, base), base, i);
            && r.Some? && r.value.name == UpToNul(d.name) && r.value.index == d.index && r.value.size == d.size
            && (r.value.ioType == INPUT <==> d.isInput) && (r.value.isPartialBufferAllowed <==> d.isPartialBufAllowed)
            && (r.value.name == d.name <==> 0 !in d.name)
  {
    hide ReadMapping, FlatImage, SizeOf, UpToNul, NameOffset;
    FlatDescribesBindings(net, base, i);
    UpToNulIsAllIff(BindingNo(net, i).name);
  }

  /** The data types agree for all bindings exactly when no output is transformed to another type. */
  lemma TypesAgreeIff(net: Network, base: nat)
    requires Describable(net) && Fits(net) && base + NameOffset(net, Count(net)) < TWO64
    ensures (forall i :: 0 <= i < Count(net) ==>
               var r := ReadMapping(FlatImage(net, base), base, i);
               r.Some? && Some(r.value.dataType) == Format(DefaultSet(net).bindings[i].dataType))
            <==> (forall j :: 0 <= j < |net.outputs| ==>
                    net.outputs[j].initial.dataType == net.outputs[j].transformed.dataType)
  {
    hide ReadMapping, FlatImage, NameOffset, SameType, Format;
    forall i | 0 <= i < Count(net)
      ensures var r := ReadMapping(FlatImage(net, base), base, i);
              r.Some? && (Some(r.value.dataType) == Format(DefaultSet(net).bindings[i].dataType) <==> SameType(net, i))
    {
      TypesAgreeFor(net, base, i);
    }
    SameTypeForAllIff(net);
  }

  /** Is the type before the transforms the one the application sees? */
  predicate SameType(net: Network, i: nat)
    requires i < Count(net)
  {
    BindingNo(net, i).initial.dataType == UserTensor(net, i).dataType
  }

  lemma TypesAgreeFor(net: Network, base: nat, i: nat)
    requires Describable(net) && Fits(net) && base + NameOffset(net, Count(net)) < TWO64 && i < Count(net)
    ensures var r := ReadMapping(FlatImage(net, base), base, i);
            r.Some? && (Some(r.value.dataType) == Format(DefaultSet(net).bindings[i].dataType) <==> SameType(net, i))
  {
    hide ReadMapping, FlatImage, SizeOf, UpToNul, NameOffset;
    FlatDescribesBindings(net, base, i);
  }

  /** For an input the two tensors are the same one. */
  lemma SameTypeForAllIff(net: Network)
    ensures (forall i :: 0 <= i < Count(net) ==> SameType(net, i))
       <==> (forall j :: 0 <= j < |net.outputs| ==>
               net.outputs[j].initial.dataType == net.outputs[j].transformed.dataType)
  {
    if forall i :: 0 <= i < Count(net) ==> SameType(net, i) {
      forall j | 0 <= j < |net.outputs|
        ensures net.outputs[j].initial.dataType == net.outputs[j].transformed.dataType
      {
        assert SameType(net, |net.inputs| + j);
      }
    }
  }
}
