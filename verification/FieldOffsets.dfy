/** Fields of records byte by byte: what a field's bytes are, and where the fields behind it move. */
module FieldOffsets {
  import opened ByteCodec

  /** The `w` bytes at `at` are the digits of `v` to the base 256, the lowest first. */
  predicate Value(s: seq<Byte>, at: nat, w: nat, v: nat) {
    at + w <= |s| && forall k :: 0 <= k < w ==> s[at + k] == v / Pow256(k) % 256
  }

  /** The bytes `part` lie at `at`. */
  predicate Lies(part: seq<Byte>, s: seq<Byte>, at: nat) {
    at + |part| <= |s| && s[at..at + |part|] == part
  }

  lemma LiesWithin(a: seq<Byte>, b: seq<Byte>, c: seq<Byte>, i: nat, j: nat)
    requires Lies(a, b, i) && Lies(b, c, j)
    ensures Lies(a, c, j + i)
  {
    forall k | 0 <= k < |a| ensures c[j + i + k] == a[k] {
      assert c[j + i + k] == c[j..j + |b|][i + k] == b[i..i + |a|][k];
    }
  }

  /** A value is found in the whole where the part lies. */
  lemma ValueIn(part: seq<Byte>, s: seq<Byte>, at: nat)
    requires Lies(part, s, at)
    ensures forall i: nat, w: nat, v: nat :: Value(part, i, w, v) ==> Value(s, at + i, w, v)
  {
    forall i: nat, w: nat, v: nat | Value(part, i, w, v) ensures Value(s, at + i, w, v) {
      forall k | 0 <= k < w ensures s[at + i + k] == v / Pow256(k) % 256 {
        assert s[at + i + k] == s[at..at + |part|][i + k] == part[i + k];
      }
    }
  }

  lemma Behind(a: seq<Byte>, rest: seq<Byte>)
    ensures forall at: nat, w: nat, v: nat :: Value(rest, at, w, v) ==> Value(a + rest, |a| + at, w, v)
  {
    ValueIn(rest, a + rest, |a|);
  }

  lemma Here(v: nat, w: nat, rest: seq<Byte>)
    ensures Value(LE(v, w) + rest, 0, w, v)
  {
    hide LE;
    forall k | 0 <= k < w ensures (LE(v, w) + rest)[0 + k] == v / Pow256(k) % 256 { LEAt(v, w, k); }
  }

  lemma InFront(a: seq<Byte>, rest: seq<Byte>)
    ensures forall at: nat, w: nat, v: nat :: Value(a, at, w, v) ==> Value(a + rest, at, w, v)
  {
    ValueIn(a, a + rest, 0);
  }

  lemma Field8(v: U64, rest: seq<Byte>) returns (s: seq<Byte>)
    ensures s == Put8(v, rest) && Value(s, 0, 8, v)
    ensures forall at: nat, w: nat, x: nat :: Value(rest, at, w, x) ==> Value(s, 8 + at, w, x)
  {
    hide LE, Value;
    s := Put8(v, rest);
    Here(v, 8, rest);
    Behind(LE(v, 8), rest);
  }

  lemma Field4(v: U32, rest: seq<Byte>) returns (s: seq<Byte>)
    ensures s == Put4(v, rest) && Value(s, 0, 4, v)
    ensures forall at: nat, w: nat, x: nat :: Value(rest, at, w, x) ==> Value(s, 4 + at, w, x)
  {
    hide LE, Value;
    s := Put4(v, rest);
    Here(v, 4, rest);
    Behind(LE(v, 4), rest);
  }

  lemma Field2(v: U16, rest: seq<Byte>) returns (s: seq<Byte>)
    ensures s == Put2(v, rest) && Value(s, 0, 2, v)
    ensures forall at: nat, w: nat, x: nat :: Value(rest, at, w, x) ==> Value(s, 2 + at, w, x)
  {
    hide LE, Value;
    s := Put2(v, rest);
    Here(v, 2, rest);
    Behind(LE(v, 2), rest);
  }

  lemma Field1(v: U8, rest: seq<Byte>) returns (s: seq<Byte>)
    ensures s == Put1(v, rest) && Value(s, 0, 1, v)
    ensures forall at: nat, w: nat, x: nat :: Value(rest, at, w, x) ==> Value(s, 1 + at, w, x)
  {
    hide LE, Value;
    s := Put1(v, rest);
    Here(v, 1, rest);
    Behind(LE(v, 1), rest);
  }

  /** Padding is zero. */
  lemma Zeros(n: nat, rest: seq<Byte>) returns (s: seq<Byte>)
    ensures s == LE(0, n) + rest && Value(s, 0, n, 0)
    ensures forall at: nat, w: nat, x: nat :: Value(rest, at, w, x) ==> Value(s, n + at, w, x)
  {
    hide LE, Value;
    s := LE(0, n) + rest;
    Here(0, n, rest);
    Behind(LE(0, n), rest);
  }
}
