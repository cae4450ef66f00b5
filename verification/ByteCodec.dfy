/** Little-endian integers as bytes, and overwriting bytes in place. */
module ByteCodec {
  import opened Division

  type Byte = x: int | 0 <= x < 256
  type U8 = x: int | 0 <= x < 0x100
  type U16 = x: int | 0 <= x < 0x1_0000
  type U32 = x: int | 0 <= x < 0x1_0000_0000
  type U64 = x: int | 0 <= x < 0x1_0000_0000_0000_0000

  const TWO16 := 0x1_0000
  const TWO32 := 0x1_0000_0000
  const TWO64 := 0x1_0000_0000_0000_0000

  /** 256 to the power of `w`. */
  function Pow256(w: nat): (p: nat)
    ensures p >= 1
  {
    if w == 0 then 1 else 256 * Pow256(w - 1)
  }

  lemma Pow256Values()
    ensures Pow256(1) == 0x100 && Pow256(2) == 0x1_0000 && Pow256(3) == 0x100_0000 && Pow256(4) == 0x1_0000_0000
    ensures Pow256(6) == 0x1_0000_0000_0000 && Pow256(7) == 0x100_0000_0000_0000
    ensures Pow256(8) == 0x1_0000_0000_0000_0000
  {
    assert Pow256(4) == 256 * Pow256(3);
    assert Pow256(6) == 256 * Pow256(5);
    assert Pow256(5) == 256 * Pow256(4);
    assert Pow256(8) == 256 * Pow256(7);
  }

  /** The `w` bytes of `v`, least significant first; higher bytes are cut off. */
  function LE(v: nat, w: nat): (s: seq<Byte>)
    ensures |s| == w
  {
    if w == 0 then [] else [v % 256] + LE(v / 256, w - 1)
  }

  function FromLE(s: seq<Byte>): nat {
    if s == [] then 0 else s[0] + 256 * FromLE(s[1..])
  }

  lemma {:induction false} FromLEOfLE(v: nat, w: nat)
    requires v < Pow256(w)
    ensures FromLE(LE(v, w)) == v
  {
    if w > 0 {
      FromLEOfLE(v / 256, w - 1);
    }
  }

  /** Byte `k` of a value is its k-th digit to the base 256. */
  lemma {:induction false} LEAt(v: nat, w: nat, k: nat)
    requires k < w
    ensures LE(v, w)[k] == v / Pow256(k) % 256
  {
    if k > 0 {
      LEAt(v / 256, w - 1, k - 1);
      DivDiv(v, 256, Pow256(k - 1));
    }
  }

  /** The value of `w` bytes is below 256^w. */
  lemma {:induction false} FromLEBound(s: seq<Byte>)
    ensures FromLE(s) < Pow256(|s|)
  {
    if s != [] { FromLEBound(s[1..]); }
  }

  // ------------------------------------------------------------------------------------------------
  // Field access
  // ------------------------------------------------------------------------------------------------

  /** The value of the `w` bytes at `at`. */
  function Get(s: seq<Byte>, at: nat, w: nat): (v: nat)
    ensures v < Pow256(w)
  {
    if at + w <= |s| then
      FromLEBound(s[at..at + w]);
      FromLE(s[at..at + w])
    else 0
  }

  /** Reading back a field that was written there. */
  lemma GetOfLE(s: seq<Byte>, at: nat, v: nat, w: nat)
    requires at + w <= |s| && s[at..at + w] == LE(v, w) && v < Pow256(w)
    ensures Get(s, at, w) == v
  {
    FromLEOfLE(v, w);
  }

  /** A field of the tail of two byte strings. */
  lemma GetOfTail(a: seq<Byte>, b: seq<Byte>, at: nat, w: nat)
    ensures Get(a + b, |a| + at, w) == Get(b, at, w)
  {
    if at + w <= |b| {
      assert (a + b)[|a| + at..|a| + at + w] == b[at..at + w];
    }
  }

  lemma GetOfHead(a: seq<Byte>, b: seq<Byte>, at: nat, w: nat)
    requires at + w <= |a|
    ensures Get(a + b, at, w) == Get(a, at, w)
  {
    assert (a + b)[at..at + w] == a[at..at + w];
  }

  lemma GetOfMiddle(a: seq<Byte>, b: seq<Byte>, c: seq<Byte>, at: nat, w: nat)
    requires at + w <= |b|
    ensures Get(a + b + c, |a| + at, w) == Get(b, at, w)
  {
    hide Get;
    assert a + b + c == a + (b + c);
    GetOfTail(a, b + c, at, w);
    GetOfHead(b, c, at, w);
  }

  /** The field of `w` bytes at the front, and the bytes behind it. */
  function Next(s: seq<Byte>, w: nat): (r: (nat, seq<Byte>))
    ensures r.0 < Pow256(w)
  {
    (Get(s, 0, w), if w <= |s| then s[w..] else [])
  }

  lemma NextOfLE(v: nat, w: nat, rest: seq<Byte>)
    requires v < Pow256(w)
    ensures Next(LE(v, w) + rest, w) == (v, rest)
  {
    assert (LE(v, w) + rest)[0..0 + w] == LE(v, w);
    GetOfLE(LE(v, w) + rest, 0, v, w);
  }

  function Next1(s: seq<Byte>): (U8, seq<Byte>) { Pow256Values(); Next(s, 1) }

  function Next2(s: seq<Byte>): (U16, seq<Byte>) { Pow256Values(); Next(s, 2) }

  function Next4(s: seq<Byte>): (U32, seq<Byte>) { Pow256Values(); Next(s, 4) }

  function Next8(s: seq<Byte>): (U64, seq<Byte>) { Pow256Values(); Next(s, 8) }

  /** Writing a field in front of others. */
  function Put1(v: U8, rest: seq<Byte>): (s: seq<Byte>)
    ensures |s| == 1 + |rest|
    ensures Next1(s) == (v, rest)
  {
    Pow256Values();
    NextOfLE(v, 1, rest);
    LE(v, 1) + rest
  }

  function Put2(v: U16, rest: seq<Byte>): (s: seq<Byte>)
    ensures |s| == 2 + |rest|
    ensures Next2(s) == (v, rest)
  {
    Pow256Values();
    NextOfLE(v, 2, rest);
    LE(v, 2) + rest
  }

  function Put4(v: U32, rest: seq<Byte>): (s: seq<Byte>)
    ensures |s| == 4 + |rest|
    ensures Next4(s) == (v, rest)
  {
    Pow256Values();
    NextOfLE(v, 4, rest);
    LE(v, 4) + rest
  }

  function Put8(v: U64, rest: seq<Byte>): (s: seq<Byte>)
    ensures |s| == 8 + |rest|
    ensures Next8(s) == (v, rest)
  {
    Pow256Values();
    NextOfLE(v, 8, rest);
    LE(v, 8) + rest
  }

  // ------------------------------------------------------------------------------------------------
  // Patching
  // ------------------------------------------------------------------------------------------------

  /** `s` with the bytes from `at` on replaced by `bytes`. */
  function Patch(s: seq<Byte>, at: nat, bytes: seq<Byte>): (r: seq<Byte>)
    requires at + |bytes| <= |s|
    ensures |r| == |s|
  {
    s[..at] + bytes + s[at + |bytes|..]
  }

  lemma LowByte(v: nat, w: nat)
    requires w > 0
    ensures LE(v, w)[0] == v % 256 && LE(v, w)[1..] == LE(v / 256, w - 1)
  {
  }

  /** Patching one byte more. */
  lemma PatchNext(s: seq<Byte>, at: nat, bytes: seq<Byte>, i: nat)
    requires i < |bytes| && at + |bytes| <= |s|
    ensures Patch(s, at, bytes[..i + 1]) == Patch(s, at, bytes[..i])[at + i := bytes[i]]
  {
  }

  /** Patching one of three parts replaces that part. */
  lemma PatchMiddle(a: seq<Byte>, b: seq<Byte>, c: seq<Byte>, b': seq<Byte>)
    requires |b| == |b'|
    ensures Patch(a + b + c, |a|, b') == a + b' + c
  {
    var s := a + b + c;
    assert s[..|a|] == a && s[|a| + |b|..] == c;
  }

  /** Overwriting part of one of three parts. */
  lemma PatchPatched(a: seq<Byte>, b: seq<Byte>, c: seq<Byte>, at: nat, bytes: seq<Byte>)
    requires at + |bytes| <= |b|
    ensures Patch(a + b + c, |a|, Patch(b, at, bytes)) == Patch(a + b + c, |a| + at, bytes)
  {
    PatchMiddle(a, b, c, Patch(b, at, bytes));
    var x, y := b[..at], b[at + |bytes|..];
    assert b == x + b[at..at + |bytes|] + y;
    assert a + b + c == (a + x) + b[at..at + |bytes|] + (y + c);
    PatchMiddle(a + x, b[at..at + |bytes|], y + c, bytes);
  }

  /** A pointer at the front of a record can be read, and overwritten without touching the rest. */
  lemma GetPointer(v: U64, rest: seq<Byte>)
    ensures Get(Put8(v, rest), 0, 8) == v
    ensures forall v': U64 :: Put8(v', rest) == Patch(Put8(v, rest), 0, LE(v', 8))
  {
    assert Next8(Put8(v, rest)).0 == v;
    forall v': U64 ensures Put8(v', rest) == Patch(Put8(v, rest), 0, LE(v', 8)) {
      PatchMiddle([], LE(v, 8), rest, LE(v', 8));
      assert Put8(v, rest) == [] + LE(v, 8) + rest;
    }
  }

  lemma SliceMiddle(a: seq<Byte>, b: seq<Byte>, c: seq<Byte>)
    ensures (a + b + c)[|a|..|a| + |b|] == b
  {
  }
}
