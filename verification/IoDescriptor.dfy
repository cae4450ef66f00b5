/**
 The I/O descriptor of a network in its flat form: one buffer with a header, an array of buffer mappings and the
 names, in which offsets have been replaced by addresses.
 */
module IoDescriptor {
  import opened Wrappers
  import opened ByteCodec
  import opened CStrings
  import opened ChunkLayout
  import opened Division
  import opened FieldOffsets

  // ------------------------------------------------------------------------------------------------
  // The network description
  // ------------------------------------------------------------------------------------------------

  datatype DataType =
    | FloatTy | Float16Ty | Int8QTy | UInt8QTy | Int16QTy | Int32QTy | Int32ITy | Int64ITy | Int8Ty | OtherTy

  /** A tensor; its 32-bit dimensions as they are multiplied, without sign. */
  datatype Tensor = Tensor(dataType: DataType, dims: seq<U32>)

  datatype TransformKind =
    | Quantize | Dequantize | Transpose | ConvertToD32 | ConvertFromD32 | Convert | CopyDmaBuffer | OtherTransform

  datatype Transform = Transform(kind: TransformKind, tensor: Tensor)

  datatype Binding = Binding(
    name: seq<Byte>, initial: Tensor, transformed: Tensor, transforms: seq<Transform>, isPartialAllowed: bool)

  datatype Network = Network(inputs: seq<Binding>, outputs: seq<Binding>)

  function Count(net: Network): nat { |net.inputs| + |net.outputs| }

  /** The inputs come first. */
  function BindingNo(net: Network, i: nat): Binding
    requires i < Count(net)
  {
    if i < |net.inputs| then net.inputs[i] else net.outputs[i - |net.inputs|]
  }

  /** What the application provides or gets: the input before, the output after all transforms. */
  function UserTensor(net: Network, i: nat): Tensor
    requires i < Count(net)
  {
    if i < |net.inputs| then net.inputs[i].initial else net.outputs[i - |net.inputs|].transformed
  }

  // ------------------------------------------------------------------------------------------------
  // Sizes
  // ------------------------------------------------------------------------------------------------

  function TypeSize(t: DataType): U32 {
    match t
    case FloatTy | Int32QTy | Int32ITy => 4
    case Float16Ty | Int16QTy => 2
    case Int8QTy | UInt8QTy | Int8Ty => 1
    case Int64ITy => 8
    case OtherTy => 0
  }

  /** The code of a data type; for an unknown type the program throws. */
  function Format(t: DataType): Option<U32> {
    match t
    case FloatTy => Some(0)
    case Float16Ty => Some(1)
    case Int8QTy => Some(2)
    case UInt8QTy => Some(3)
    case Int16QTy => Some(4)
    case Int32QTy => Some(5)
    case Int32ITy => Some(6)
    case Int64ITy => Some(7)
    case Int8Ty => Some(8)
    case OtherTy => None
  }

  /** `x` times the non-zero dimensions from the `j`-th on, in 32-bit arithmetic. */
  function TimesFrom(x: U32, dims: seq<U32>, j: nat): U32
    decreases |dims| - j
  {
    if j >= |dims| then x
    else TimesFrom(if dims[j] == 0 then x else x * dims[j] % TWO32, dims, j + 1)
  }

  /** The number of elements: zero dimensions do not count. */
  function Elements(dims: seq<U32>, j: nat): nat
    decreases |dims| - j
  {
    if j >= |dims| then 1 else (if dims[j] == 0 then 1 else dims[j]) * Elements(dims, j + 1)
  }

  /** The size of a tensor in bytes, cut to 32 bits. */
  function SizeOf(t: Tensor): U32 {
    TypeSize(t.dataType) * Elements(t.dims, 0) % TWO32
  }

  lemma TimesOne(x: nat, d: nat, rest: nat)
    ensures x * d % TWO32 * rest % TWO32 == x * (d * rest) % TWO32
  {
    ModOfProduct(x * d, rest, TWO32);
    assert x * d * rest == x * (d * rest);
  }

  lemma {:induction false} TimesFromIs(x: U32, dims: seq<U32>, j: nat)
    ensures TimesFrom(x, dims, j) == x * Elements(dims, j) % TWO32
    decreases |dims| - j
  {
    if j < |dims| && dims[j] != 0 {
      TimesFromIs(x * dims[j] % TWO32, dims, j + 1);
      TimesOne(x, dims[j], Elements(dims, j + 1));
    } else if j < |dims| {
      TimesFromIs(x, dims, j + 1);
    }
  }

  /** The flat form multiplies the type size last, the protocol buffer form first: both give the size. */
  lemma BothOrdersGiveSize(t: Tensor)
    ensures TimesFrom(1, t.dims, 0) * TypeSize(t.dataType) % TWO32 == SizeOf(t)
    ensures TimesFrom(TypeSize(t.dataType), t.dims, 0) == SizeOf(t)
  {
    var n, size := Elements(t.dims, 0), TypeSize(t.dataType);
    TimesFromIs(1, t.dims, 0);
    TimesFromIs(size, t.dims, 0);
    ModOfProduct(n, size, TWO32);
    assert n * size == size * n;
  }

  /** The product of the non-zero dimensions. */
  function Product(dims: seq<U32>): nat {
    if dims == [] then 1
    else
      var last := dims[|dims| - 1];
      Product(dims[..|dims| - 1]) * if last != 0 then last else 1
  }

  lemma TimesAgain(x: nat, y: nat, d: nat)
    ensures x * (y * d) == x * y * d
  {
  }

  lemma {:induction false} ElementsMore(dims: seq<U32>, last: U32, j: nat)
    requires j <= |dims|
    ensures Elements(dims + [last], j) == Elements(dims, j) * if last != 0 then last else 1
    decreases |dims| - j
  {
    var all, d := dims + [last], if last != 0 then last else 1;
    if j < |dims| {
      ElementsMore(dims, last, j + 1);
      assert all[j] == dims[j];
      TimesAgain(if dims[j] == 0 then 1 else dims[j], Elements(dims, j + 1), d);
    } else {
      assert all[j] == last && Elements(all, j + 1) == 1 && Elements(dims, j) == 1;
    }
  }

  lemma {:induction false} ElementsAre(dims: seq<U32>)
    ensures Elements(dims, 0) == Product(dims)
  {
    if dims != [] {
      var before, last := dims[..|dims| - 1], dims[|dims| - 1];
      ElementsAre(before);
      ElementsMore(before, last, 0);
      assert before + [last] == dims;
    }
  }

  /** The size in bytes for each data type, and its code in the descriptor. */
  lemma SizesAndCodes(t: Tensor)
    ensures t.dataType in {Int8QTy, UInt8QTy, Int8Ty} ==> SizeOf(t) == Product(t.dims) % TWO32
    ensures t.dataType in {Float16Ty, Int16QTy} ==> SizeOf(t) == 2 * Product(t.dims) % TWO32
    ensures t.dataType in {FloatTy, Int32QTy, Int32ITy} ==> SizeOf(t) == 4 * Product(t.dims) % TWO32
    ensures t.dataType == Int64ITy ==> SizeOf(t) == 8 * Product(t.dims) % TWO32
    ensures Format(t.dataType) == None <==> t.dataType == OtherTy
    ensures forall k :: 0 <= k < |CODED| ==> (Format(t.dataType) == Some(k) <==> t.dataType == CODED[k])
  {
    ElementsAre(t.dims);
  }

  /** The data types in the order of their codes. */
  const CODED: seq<DataType> :=
    [FloatTy, Float16Ty, Int8QTy, UInt8QTy, Int16QTy, Int32QTy, Int32ITy, Int64ITy, Int8Ty]

  // ------------------------------------------------------------------------------------------------
  // Records
  // ------------------------------------------------------------------------------------------------

  datatype Mapping = Mapping(
    bufferName: U64, index: U32, ioType: U32, size: U32, isPartialBufferAllowed: U8, dataType: U32)

  const INPUT: U32 := 1
  const OUTPUT: U32 := 2
  const MAPPING_SIZE := 32
  const TABLE_OFFSET := 16

  function MappingTail(m: Mapping): (s: seq<Byte>)
    ensures |s| == 24
  {
    Put4(m.index, Put4(m.ioType, Put4(m.size, Put1(m.isPartialBufferAllowed, LE(0, 3) + Put4(m.dataType, LE(0, 4))))))
  }

  function EncMapping(m: Mapping): (s: seq<Byte>)
    ensures |s| == MAPPING_SIZE
  {
    Put8(m.bufferName, MappingTail(m))
  }

  function DecMapping(s: seq<Byte>): Mapping {
    var bufferName := Next8(s);
    var index := Next4(bufferName.1);
    var ioType := Next4(index.1);
    var size := Next4(ioType.1);
    var partial := Next1(size.1);
    var padding := Next(partial.1, 3);
    var dataType := Next4(padding.1);
    Mapping(bufferName.0, index.0, ioType.0, size.0, partial.0, dataType.0)
  }

  lemma MappingRoundTrip(m: Mapping)
    ensures DecMapping(EncMapping(m)) == m
  {
    hide Put1, Put4, Put8, Next, Next1, Next4, Next8, LE;
    Pow256Values();
    NextOfLE(0, 3, Put4(m.dataType, LE(0, 4)));
  }

  function EncInfo(n: U32, mappings: U64): (s: seq<Byte>)
    ensures |s| == TABLE_OFFSET
  {
    Put4(n, LE(0, 4)) + Put8(mappings, [])
  }

  lemma InfoPointer(n: U32, p: U64)
    ensures Get(EncInfo(n, p), 8, 8) == p
    ensures forall v: U64 :: EncInfo(n, v) == Patch(EncInfo(n, p), 8, LE(v, 8))
  {
    hide Put4, Put8, LE, Get, Patch;
    var head := Put4(n, LE(0, 4));
    GetPointer(p, []);
    GetOfTail(head, Put8(p, []), 0, 8);
    forall v: U64 ensures EncInfo(n, v) == Patch(EncInfo(n, p), 8, LE(v, 8)) {
      PatchMiddle(head, Put8(p, []), [], Put8(v, []));
      PatchPatched(head, Put8(p, []), [], 0, LE(v, 8));
      assert head + Put8(p, []) + [] == EncInfo(n, p) && head + Put8(v, []) + [] == EncInfo(n, v);
    }
  }

  /** A mapping's name pointer can be set without touching its other fields. */
  lemma MappingPointer(m: Mapping, v: U64)
    ensures EncMapping(m.(bufferName := v)) == Patch(EncMapping(m), 0, LE(v, 8))
  {
    hide Put8, LE, Patch;
    GetPointer(m.bufferName, MappingTail(m));
    assert MappingTail(m.(bufferName := v)) == MappingTail(m);
  }

  /** Where the fields of a mapping lie. */
  lemma MappingFieldsAt(m: Mapping)
    ensures var s := EncMapping(m);
            && Value(s, 0, 8, m.bufferName) && Value(s, 8, 4, m.index) && Value(s, 12, 4, m.ioType)
            && Value(s, 16, 4, m.size) && Value(s, 20, 1, m.isPartialBufferAllowed) && Value(s, 21, 3, 0)
            && Value(s, 24, 4, m.dataType) && Value(s, 28, 4, 0)
  {
    hide Value, Put1, Put4, Put8, LE;
    assert LE(0, 4) + [] == LE(0, 4);
    var s := Zeros(4, []);
    s := Field4(m.dataType, s);
    s := Zeros(3, s);
    s := Field1(m.isPartialBufferAllowed, s);
    s := Field4(m.size, s);
    s := Field4(m.ioType, s);
    s := Field4(m.index, s);
    s := Field8(m.bufferName, s);
  }

  lemma InfoFieldsAt(n: U32, mappings: U64)
    ensures var s := EncInfo(n, mappings); Value(s, 0, 4, n) && Value(s, 4, 4, 0) && Value(s, 8, 8, mappings)
  {
    hide Value, Put4, Put8, LE;
    var s := Field8(mappings, []);
    s := Zeros(4, s);
    var t := Field4(n, s);
    assert Put4(n, LE(0, 4)) + Put8(mappings, []) == t by { PutIsLE(n, LE(0, 4)); PutIsLE(n, s); }
  }

  lemma PutIsLE(n: U32, rest: seq<Byte>)
    ensures Put4(n, rest) == LE(n, 4) + rest
  {
  }

  // ------------------------------------------------------------------------------------------------
  // Names
  // ------------------------------------------------------------------------------------------------

  /** A name as it is stored: NUL-terminated, and filled with NULs to whole words. */
  function Stored(name: seq<Byte>): (s: seq<Byte>)
    ensures |s| % 4 == 0 && |name| < |s| <= |name| + 4
    ensures s[..|name|] == name && forall k :: |name| <= k < |s| ==> s[k] == 0
  {
    AlignToSpec(|name| + 1, 4);
    name + seq(AlignTo(|name| + 1, 4) - |name|, _ => 0)
  }

  // ------------------------------------------------------------------------------------------------
  // The buffer
  // ------------------------------------------------------------------------------------------------

  /** Every binding has a name and a data type that can be described. */
  predicate Describable(net: Network) {
    forall i :: 0 <= i < Count(net) ==> BindingNo(net, i).name != [] && Format(BindingNo(net, i).initial.dataType).Some?
  }

  /** Mapping `i` with its name at address `p`; its data type is that of the initial tensor, even for an output. */
  function MappingNo(net: Network, i: nat, p: U64): Mapping
    requires i < Count(net) < TWO32 && Format(BindingNo(net, i).initial.dataType).Some?
  {
    var b := BindingNo(net, i);
    Mapping(p, i, if i < |net.inputs| then INPUT else OUTPUT, SizeOf(UserTensor(net, i)),
            if b.isPartialAllowed then 1 else 0, Format(b.initial.dataType).value)
  }

  /** Where name `i` is stored. */
  function NameOffset(net: Network, i: nat): nat
    requires i <= Count(net)
  {
    if i == 0 then TABLE_OFFSET + MAPPING_SIZE * Count(net)
    else NameOffset(net, i - 1) + |Stored(BindingNo(net, i - 1).name)|
  }

  /** The whole size; the program counts it in a signed 32-bit integer. */
  predicate Fits(net: Network) {
    Count(net) < TWO32 && NameOffset(net, Count(net)) < 0x8000_0000
  }

  /** Chunk `k` of the buffer, with the given pointers: the header, the mappings, the names. */
  function ChunkNo(net: Network, table: U64, names: seq<U64>, k: nat): (c: Chunk)
    requires Describable(net) && Count(net) < TWO32 && |names| == Count(net) && k <= 2 * Count(net)
    ensures c.align >= 1
  {
    if k == 0 then Chunk(8, EncInfo(Count(net), table))
    else if k <= Count(net) then Chunk(8, EncMapping(MappingNo(net, k - 1, names[k - 1])))
    else Chunk(1, Stored(BindingNo(net, k - 1 - Count(net)).name))
  }

  function Chunks(net: Network, table: U64, names: seq<U64>): (cs: seq<Chunk>)
    requires Describable(net) && Count(net) < TWO32 && |names| == Count(net)
    ensures Aligned(cs) && |cs| == 2 * Count(net) + 1
  {
    seq(2 * Count(net) + 1, k requires 0 <= k < 2 * Count(net) + 1 => ChunkNo(net, table, names, k))
  }

  /** Where chunk `k` ends, and that it starts where the one before ends. */
  function EndOf(net: Network, k: nat): nat
    requires k <= 2 * Count(net) + 1
  {
    if k == 0 then 0
    else if k <= Count(net) + 1 then TABLE_OFFSET + MAPPING_SIZE * (k - 1)
    else NameOffset(net, k - 1 - Count(net))
  }

  /** The chunks follow each other without gaps. */
  lemma {:induction false} LayoutIs(net: Network, table: U64, names: seq<U64>, k: nat)
    requires Describable(net) && Count(net) < TWO32 && |names| == Count(net) && k <= 2 * Count(net) + 1
    ensures var cs := Chunks(net, table, names);
            |Lay(cs[..k])| == EndOf(net, k) && (k < |cs| ==> Offset(cs, k) == EndOf(net, k))
  {
    hide ChunkNo, Describable, AlignTo, BindingNo, NameOffset;
    var cs := Chunks(net, table, names);
    if k > 0 {
      LayoutIs(net, table, names, k - 1);
      ChunkBounds(cs, k - 1);
      ChunkSize(net, table, names, k - 1);
    }
    if k < |cs| { NoPadding(net, table, names, k); }
  }

  lemma ChunkSize(net: Network, table: U64, names: seq<U64>, k: nat)
    requires Describable(net) && Count(net) < TWO32 && |names| == Count(net) && k <= 2 * Count(net)
    ensures EndOf(net, k) + |ChunkNo(net, table, names, k).bytes| == EndOf(net, k + 1)
  {
  }

  lemma NoPadding(net: Network, table: U64, names: seq<U64>, k: nat)
    requires Describable(net) && Count(net) < TWO32 && |names| == Count(net) && k <= 2 * Count(net)
    ensures AlignTo(EndOf(net, k), ChunkNo(net, table, names, k).align) == EndOf(net, k)
  {
    AlignToSpec(EndOf(net, k), ChunkNo(net, table, names, k).align);
  }

  /** The addresses of the names in a buffer at address `base`. */
  function NamePointers(net: Network, base: nat): (ps: seq<U64>)
    ensures |ps| == Count(net)
  {
    seq(Count(net), i requires 0 <= i < Count(net) => (base + NameOffset(net, i)) % TWO64)
  }

  /** The finished buffer at address `base`. */
  function FlatImage(net: Network, base: nat): seq<Byte>
    requires Describable(net) && Fits(net)
  {
    Lay(Chunks(net, (base + TABLE_OFFSET) % TWO64, NamePointers(net, base)))
  }

  // ------------------------------------------------------------------------------------------------
  // Reading it
  // ------------------------------------------------------------------------------------------------

  /** What an application sees of one mapping. */
  datatype View = View(
    name: seq<Byte>, index: U32, ioType: U32, size: U32, isPartialBufferAllowed: bool, dataType: U32)

  /** Follows the pointers in the buffer at `base` to mapping `i` and its name; None outside the buffer. */
  function ReadMapping(s: seq<Byte>, base: nat, i: nat): Option<View> {
    var at := Get(s, 8, 8) - base + MAPPING_SIZE * i;
    if at < 0 || at + MAPPING_SIZE > |s| then None
    else
      var m := DecMapping(s[at..at + MAPPING_SIZE]);
      var nameAt := m.bufferName - base;
      if nameAt < 0 || nameAt > |s| then None
      else Some(View(UpToNul(s[nameAt..]), m.index, m.ioType, m.size, m.isPartialBufferAllowed != 0, m.dataType))
  }

  lemma {:induction false} NameOffsetGrows(net: Network, i: nat)
    requires i <= Count(net)
    ensures TABLE_OFFSET + MAPPING_SIZE * Count(net) <= NameOffset(net, i) <= NameOffset(net, Count(net))
    decreases Count(net) - i
  {
    if i < Count(net) { NameOffsetGrows(net, i + 1); }
    if i > 0 { NameOffsetIsBehind(net, i); }
  }

  lemma {:induction false} NameOffsetIsBehind(net: Network, i: nat)
    requires i <= Count(net)
    ensures TABLE_OFFSET + MAPPING_SIZE * Count(net) <= NameOffset(net, i)
  {
    if i > 0 { NameOffsetIsBehind(net, i - 1); }
  }

  /** The header holds the number of mappings and leads to them. */
  lemma HeaderOfFlat(net: Network, base: nat)
    requires Describable(net) && Fits(net) && base + NameOffset(net, Count(net)) < TWO64
    ensures |FlatImage(net, base)| == NameOffset(net, Count(net))
    ensures Get(FlatImage(net, base), 0, 4) == Count(net)
    ensures Get(FlatImage(net, base), 8, 8) == base + TABLE_OFFSET
  {
    hide Get, Lay, EncInfo, NameOffset, Describable, MappingNo;
    var table, names := (base + TABLE_OFFSET) % TWO64, NamePointers(net, base);
    var cs := Chunks(net, table, names);
    FlatSize(net, base);
    NameOffsetGrows(net, Count(net));
    LayoutIs(net, table, names, 0);
    GetInChunk(cs, 0, 0, 4);
    GetInChunk(cs, 0, 8, 8);
    InfoPointer(Count(net), table);
    InfoCount(Count(net), table);
  }

  lemma FlatSize(net: Network, base: nat)
    requires Describable(net) && Fits(net)
    ensures |FlatImage(net, base)| == NameOffset(net, Count(net))
  {
    hide Lay, ChunkNo, Describable, NameOffset;
    var table, names := (base + TABLE_OFFSET) % TWO64, NamePointers(net, base);
    var cs := Chunks(net, table, names);
    LayoutIs(net, table, names, |cs|);
    FirstName(net);
    assert cs[..|cs|] == cs;
  }

  lemma InfoCount(n: U32, p: U64)
    ensures Get(EncInfo(n, p), 0, 4) == n
  {
    hide LE, Get;
    var rest := LE(0, 4);
    assert Next4(Put4(n, rest)).0 == n;
    GetOfHead(Put4(n, rest), Put8(p, []), 0, 4);
  }

  /** The bytes at a mapping's place are the mapping. */
  lemma MappingInFlat(net: Network, base: nat, i: nat)
    requires Describable(net) && Fits(net) && i < Count(net)
    ensures var s, at := FlatImage(net, base), TABLE_OFFSET + MAPPING_SIZE * i;
            && at + MAPPING_SIZE <= |s|
            && DecMapping(s[at..at + MAPPING_SIZE]) == MappingNo(net, i, NamePointers(net, base)[i])
  {
    hide EncMapping, DecMapping, MappingNo, Lay, Offset;
    var table, names := (base + TABLE_OFFSET) % TWO64, NamePointers(net, base);
    var cs := Chunks(net, table, names);
    LayoutIs(net, table, names, i + 1);
    ReadChunk(cs, i + 1);
    MappingRoundTrip(MappingNo(net, i, names[i]));
  }

  /** The C string at a name's offset is the name. */
  lemma NameInFlat(net: Network, base: nat, i: nat)
    requires Describable(net) && Fits(net) && i < Count(net)
    ensures var s, at := FlatImage(net, base), NameOffset(net, i);
            at <= |s| && UpToNul(s[at..]) == UpToNul(BindingNo(net, i).name)
  {
    hide Lay, Offset, Before, After, UpToNul, NameOffset;
    var table, names := (base + TABLE_OFFSET) % TWO64, NamePointers(net, base);
    var cs, k, name := Chunks(net, table, names), 1 + Count(net) + i, BindingNo(net, i).name;
    LayoutIs(net, table, names, k);
    SplitAt(cs, k);
    var s, rest := FlatImage(net, base), Stored(name)[|name|..] + After(cs, k);
    assert EndOf(net, k) == NameOffset(net, i) by { FirstName(net); }
    assert s[NameOffset(net, i)..] == Stored(name) + After(cs, k);
    assert Stored(name) + After(cs, k) == name + rest;
    UpToNulOf(name, rest);
  }

  lemma FirstName(net: Network)
    ensures NameOffset(net, 0) == TABLE_OFFSET + MAPPING_SIZE * Count(net)
  {
  }

  /** What is read when the header, the mapping and the name are where the pointers say. */
  lemma ReadIs(s: seq<Byte>, base: nat, i: nat, m: Mapping, nameAt: nat)
    requires Get(s, 8, 8) == base + TABLE_OFFSET && m.bufferName == base + nameAt && nameAt <= |s|
    requires var at := TABLE_OFFSET + MAPPING_SIZE * i;
             at + MAPPING_SIZE <= |s| && DecMapping(s[at..at + MAPPING_SIZE]) == m
    ensures ReadMapping(s, base, i) == Some(
              View(UpToNul(s[nameAt..]), m.index, m.ioType, m.size, m.isPartialBufferAllowed != 0, m.dataType))
  {
    hide UpToNul, DecMapping, Get;
  }

  /**
   Mapping `i` describes the i-th binding, inputs first: its name up to the first NUL, its size, its index and its
   partial flag.
   */
  lemma FlatDescribesBindings(net: Network, base: nat, i: nat)
    requires Describable(net) && Fits(net) && base + NameOffset(net, Count(net)) < TWO64 && i < Count(net)
    ensures var b := BindingNo(net, i);
            ReadMapping(FlatImage(net, base), base, i) == Some(
              View(UpToNul(b.name), i, if i < |net.inputs| then INPUT else OUTPUT, SizeOf(UserTensor(net, i)),
                   b.isPartialAllowed, Format(b.initial.dataType).value))
  {
    hide UpToNul, FlatImage, DecMapping, Get, SizeOf, NameOffset, UserTensor, Format, BindingNo, ReadMapping;
    HeaderOfFlat(net, base);
    MappingInFlat(net, base, i);
    NameInFlat(net, base, i);
    NameOffsetGrows(net, i);
    ReadIs(FlatImage(net, base), base, i, MappingNo(net, i, NamePointers(net, base)[i]), NameOffset(net, i));
  }
}
