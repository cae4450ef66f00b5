/** The sixteen-word DMA request element: bit fields, relocation, and what the kernel's slice entry takes from it. */
module DmaElement {
  import opened ByteCodec

  // ------------------------------------------------------------------------------------------------
  // Semaphore and DMA commands
  // ------------------------------------------------------------------------------------------------

  datatype SemCmd = SemCmd(enable: bool, ibSync: bool, obSync: bool, cmdID: bv8, sync: bool, semID: bv8, value: bv16) {
    /** The hardware limits on a semaphore command; 7 is the unknown opcode. */
    predicate IsValid() { semID < 32 && cmdID < 7 && value <= 4095 }

    /** Every field fits its bits. */
    predicate Fits() { semID < 32 && cmdID < 8 && value < 4096 }
  }

  const NO_SEM := SemCmd(false, false, false, 0, false, 0, 0)

  function Bit(b: bool): bv32 { if b then 1 else 0 }

  function EncodeSem(s: SemCmd): bv32 {
    (Bit(s.enable) << 31) | (Bit(s.ibSync) << 30) | (Bit(s.obSync) << 29) | ((s.cmdID as bv32) << 24)
    | (Bit(s.sync) << 22) | ((s.semID as bv32) << 16) | (s.value as bv32)
  }

  function DecodeSem(w: bv32): SemCmd {
    SemCmd((w >> 31) & 1 == 1, (w >> 30) & 1 == 1, (w >> 29) & 1 == 1, ((w >> 24) & 0x7) as bv8, (w >> 22) & 1 == 1,
           ((w >> 16) & 0x1f) as bv8, (w & 0xfff) as bv16)
  }

  /** A semaphore word carries the command exactly when every field fits its bits. */
  lemma SemRoundTripIff(s: SemCmd)
    ensures DecodeSem(EncodeSem(s)) == s <==> s.Fits()
  {
  }

  lemma DecodedSemFits(w: bv32)
    ensures DecodeSem(w).Fits()
  {
  }

  const NO_TRANSFER: bv8 := 0
  const INBOUND: bv8 := 1
  const OUTBOUND: bv8 := 2
  const BULK: bv8 := 1

  datatype DmaCmd = DmaCmd(forceMSI: bool, response: bool, transferType: bv8, direction: bv8) {
    predicate IsValid() { direction == OUTBOUND || direction == INBOUND || direction == NO_TRANSFER }

    predicate Fits() { transferType < 2 && direction < 4 }
  }

  function EncodeCmd(c: DmaCmd): bv8 {
    ((if c.forceMSI then 1 else 0) << 7) | ((if c.response then 1 else 0) << 4) | (c.transferType << 3) | c.direction
  }

  function DecodeCmd(b: bv8): DmaCmd {
    DmaCmd((b >> 7) & 1 == 1, (b >> 4) & 1 == 1, (b >> 3) & 1, b & 0x3)
  }

  lemma CmdRoundTripIff(c: DmaCmd)
    ensures DecodeCmd(EncodeCmd(c)) == c <==> c.Fits()
  {
  }

  lemma DecodedCmdFits(b: bv8)
    ensures DecodeCmd(b).Fits()
  {
  }

  // ------------------------------------------------------------------------------------------------
  // Words
  // ------------------------------------------------------------------------------------------------

  const ELEMENT_WORDS := 16

  /** The words of one element. */
  type Words = s: seq<U32> | |s| == ELEMENT_WORDS witness seq(ELEMENT_WORDS, _ => 0)

  function SemWord(s: SemCmd): U32 { EncodeSem(s) as int }

  function SemOfWord(w: U32): SemCmd { DecodeSem(w as bv32) }

  lemma SemWordRoundTripIff(s: SemCmd)
    ensures SemOfWord(SemWord(s)) == s <==> s.Fits()
  {
    hide EncodeSem, DecodeSem;
    SemRoundTripIff(s);
    BitsOfWord(EncodeSem(s));
  }

  lemma BitsOfWord(w: bv32)
    ensures (w as int) as bv32 == w
  {
  }

  /** Request ID, sequence ID and DMA command. */
  function FirstWord(reqID: U16, seqID: U8, cmd: bv8): U32 { reqID + seqID * TWO16 + (cmd as int) * 0x100_0000 }

  function ReqIDOf(w: U32): U16 { w % TWO16 }

  function SeqIDOf(w: U32): U8 { w / TWO16 % 256 }

  function CmdOf(w: U32): bv8 { (w / 0x100_0000) as bv8 }

  lemma FirstWordFields(reqID: U16, seqID: U8, cmd: bv8)
    ensures var w := FirstWord(reqID, seqID, cmd); ReqIDOf(w) == reqID && SeqIDOf(w) == seqID && CmdOf(w) == cmd
  {
    var c: U8 := cmd as int;
    var w := reqID + seqID * TWO16 + c * 0x100_0000;
    assert w / 0x100_0000 == c;
    assert c as bv8 == cmd;
  }

  function Low(a: U64): U32 { a % TWO32 }

  function High(a: U64): U32 { a / TWO32 }

  function Wide(high: U32, low: U32): U64 { high * TWO32 + low }

  lemma WideRoundTrip(a: U64)
    ensures Wide(High(a), Low(a)) == a
  {
  }

  /** The doorbell's write flag and length code. */
  function DoorbellWord(write: U8, len: U8): U32 { write % 2 * 0x80 + len % 4 }

  function WriteOf(w: U32): U8 { w / 0x80 % 2 }

  function LenOf(w: U32): U8 { w % 4 }

  lemma DoorbellFields(write: U8, len: U8)
    ensures WriteOf(DoorbellWord(write, len)) == write <==> write < 2
    ensures LenOf(DoorbellWord(write, len)) == len <==> len < 4
  {
  }

  // ------------------------------------------------------------------------------------------------
  // Elements
  // ------------------------------------------------------------------------------------------------

  datatype Element = Element(
    reqID: U16, seqID: U8, cmd: DmaCmd, src: U64, dst: U64, len: U32, dbAddr: U64, dbWrite: U8, dbLen: U8,
    dbData: U32, sem0: SemCmd, sem1: SemCmd, sem2: SemCmd, sem3: SemCmd) {
    predicate Fits() {
      cmd.Fits() && dbWrite < 2 && dbLen < 4 && sem0.Fits() && sem1.Fits() && sem2.Fits() && sem3.Fits()
    }

    predicate IsValid() {
      cmd.IsValid() && sem0.IsValid() && sem1.IsValid() && sem2.IsValid() && sem3.IsValid()
    }
  }

  function Encode(e: Element): (ws: Words)
  {
    [FirstWord(e.reqID, e.seqID, EncodeCmd(e.cmd)), 0, Low(e.src), High(e.src), Low(e.dst), High(e.dst), e.len, 0,
     Low(e.dbAddr), High(e.dbAddr), DoorbellWord(e.dbWrite, e.dbLen), e.dbData,
     SemWord(e.sem0), SemWord(e.sem1), SemWord(e.sem2), SemWord(e.sem3)]
  }

  function Decode(ws: Words): Element
  {
    Element(ReqIDOf(ws[0]), SeqIDOf(ws[0]), DecodeCmd(CmdOf(ws[0])), Wide(ws[3], ws[2]), Wide(ws[5], ws[4]), ws[6],
            Wide(ws[9], ws[8]), WriteOf(ws[10]), LenOf(ws[10]), ws[11], SemOfWord(ws[12]), SemOfWord(ws[13]),
            SemOfWord(ws[14]), SemOfWord(ws[15]))
  }

  /** The sixteen words carry the element exactly when every field fits its bits. */
  lemma ElementRoundTripIff(e: Element)
    ensures Decode(Encode(e)) == e <==> e.Fits()
  {
    hide EncodeCmd, DecodeCmd, SemWord, SemOfWord, Wide, High, Low, FirstWord, ReqIDOf, SeqIDOf, CmdOf, DoorbellWord,
      WriteOf, LenOf, SemCmd.Fits, DmaCmd.Fits;
    FirstWordFields(e.reqID, e.seqID, EncodeCmd(e.cmd));
    CmdRoundTripIff(e.cmd);
    WideRoundTrip(e.src);
    WideRoundTrip(e.dst);
    WideRoundTrip(e.dbAddr);
    DoorbellFields(e.dbWrite, e.dbLen);
    SemWordRoundTripIff(e.sem0);
    SemWordRoundTripIff(e.sem1);
    SemWordRoundTripIff(e.sem2);
    SemWordRoundTripIff(e.sem3);
  }

  lemma DecodedDoorbellFits(w: U32)
    ensures WriteOf(w) < 2 && LenOf(w) < 4
  {
  }

  /** What is decoded always fits. */
  lemma DecodedFits(ws: Words)
    ensures Decode(ws).Fits()
  {
    hide DecodeCmd, DecodeSem, Wide, ReqIDOf, SeqIDOf, CmdOf, WriteOf, LenOf, SemCmd.Fits, DmaCmd.Fits;
    DecodedCmdFits(CmdOf(ws[0]));
    DecodedDoorbellFits(ws[10]);
    DecodedSemFits(ws[12] as bv32);
    DecodedSemFits(ws[13] as bv32);
    DecodedSemFits(ws[14] as bv32);
    DecodedSemFits(ws[15] as bv32);
  }

  // ------------------------------------------------------------------------------------------------
  // Relocation
  // ------------------------------------------------------------------------------------------------

  /** 64-bit addition. */
  function Add(a: U64, b: U64): U64 { (a + b) % TWO64 }

  lemma AddFacts(x: U64, a: U64, b: U64)
    ensures Add(Add(x, a), b) == Add(x, Add(a, b)) && Add(x, 0) == x == Add(0, x)
  {
    assert Add(x, a) == if x + a < TWO64 then x + a else x + a - TWO64;
    assert Add(a, b) == if a + b < TWO64 then a + b else a + b - TWO64;
  }

  /** The address shifted by a base if it applies. */
  function Shifted(applies: bool, addr: U64, base: U64): U64 { if applies then Add(addr, base) else addr }

  /** Adds the base addresses; all arithmetic wraps at 64 bits. */
  function Relocate(e: Element, vtcm: bool, ddrBase: U64, mcIDBase: U64): Element {
    var base := if vtcm then mcIDBase else ddrBase;
    e.(dst := Shifted(e.cmd.direction == INBOUND, e.dst, base),
       src := Shifted(e.cmd.direction == OUTBOUND, e.src, base),
       dbAddr := Shifted(mcIDBase != 0 && e.dbWrite != 0, e.dbAddr, mcIDBase))
  }

  /** The copy of an element that owns its words: decoded, relocated and encoded again. */
  function Relocated(ws: Words, vtcm: bool, ddrBase: U64, mcIDBase: U64): (r: Words)
  {
    Encode(Relocate(Decode(ws), vtcm, ddrBase, mcIDBase))
  }

  lemma ShiftTwice(applies: bool, x: U64, a: U64, b: U64)
    ensures Shifted(applies, Shifted(applies, x, a), b) == Shifted(applies, x, Add(a, b))
    ensures Shifted(b != 0 && applies, Shifted(a != 0 && applies, x, a), b)
            == Shifted(Add(a, b) != 0 && applies, x, Add(a, b))
  {
    hide Add;
    AddFacts(x, a, b);
    AddFacts(a, b, 0);
    AddFacts(b, 0, 0);
  }

  lemma RelocateTwice(e: Element, vtcm: bool, a: U64, b: U64, c: U64, d: U64)
    ensures Relocate(Relocate(e, vtcm, a, b), vtcm, c, d) == Relocate(e, vtcm, Add(a, c), Add(b, d))
  {
    hide Add, Shifted;
    ShiftTwice(e.cmd.direction == INBOUND, e.dst, if vtcm then b else a, if vtcm then d else c);
    ShiftTwice(e.cmd.direction == OUTBOUND, e.src, if vtcm then b else a, if vtcm then d else c);
    ShiftTwice(e.dbWrite != 0, e.dbAddr, b, d);
  }

  lemma RelocateKeepsFit(e: Element, vtcm: bool, ddrBase: U64, mcIDBase: U64)
    ensures Relocate(e, vtcm, ddrBase, mcIDBase).Fits() <==> e.Fits()
    ensures var r := Relocate(e, vtcm, ddrBase, mcIDBase);
            r == e.(src := r.src, dst := r.dst, dbAddr := r.dbAddr)
  {
    hide Shifted, SemCmd.Fits, DmaCmd.Fits;
  }

  /** Relocating any words by (a, b) and then by (c, d) is relocating them once by (a + c, b + d). */
  lemma RelocationsCompose(ws: Words, vtcm: bool, a: U64, b: U64, c: U64, d: U64)
    ensures Relocated(Relocated(ws, vtcm, a, b), vtcm, c, d) == Relocated(ws, vtcm, Add(a, c), Add(b, d))
  {
    hide Encode, Decode, Relocate, Element.Fits;
    var e := Decode(ws);
    DecodedFits(ws);
    RelocateKeepsFit(e, vtcm, a, b);
    ElementRoundTripIff(Relocate(e, vtcm, a, b));
    RelocateTwice(e, vtcm, a, b, c, d);
  }

  /** Reading relocated words gives the relocated element. */
  lemma RelocatedMeans(ws: Words, vtcm: bool, ddrBase: U64, mcIDBase: U64)
    ensures Decode(Relocated(ws, vtcm, ddrBase, mcIDBase)) == Relocate(Decode(ws), vtcm, ddrBase, mcIDBase)
  {
    hide Encode, Decode, Relocate, Element.Fits;
    DecodedFits(ws);
    RelocateKeepsFit(Decode(ws), vtcm, ddrBase, mcIDBase);
    ElementRoundTripIff(Relocate(Decode(ws), vtcm, ddrBase, mcIDBase));
  }
}
