/** Arrays of fixed-size records in memory. */
module RecordArrays {
  import opened ByteCodec

  /** How a type of records is stored. */
  datatype Codec<!T> = Codec(size: nat, enc: T -> seq<Byte>, dec: seq<Byte> -> T)

  /** Every record takes `size` bytes and can be read back. */
  ghost predicate Lawful<T(!new)>(c: Codec<T>) {
    c.size >= 1 && forall t {:trigger c.enc(t)} :: |c.enc(t)| == c.size && c.dec(c.enc(t)) == t
  }

  /** The records one after the other. */
  function EncAll<T>(c: Codec<T>, xs: seq<T>): seq<Byte> {
    if xs == [] then [] else c.enc(xs[0]) + EncAll(c, xs[1..])
  }

  /** The first `n` records of `s`. */
  function ReadAll<T>(c: Codec<T>, s: seq<Byte>, n: nat): (xs: seq<T>)
    requires n * c.size <= |s|
    ensures |xs| == n
    decreases n
  {
    if n == 0 then []
    else
      assert n * c.size == c.size + (n - 1) * c.size;
      [c.dec(s[..c.size])] + ReadAll(c, s[c.size..], n - 1)
  }

  lemma {:induction false} EncAllSize<T(!new)>(c: Codec<T>, xs: seq<T>)
    requires Lawful(c)
    ensures |EncAll(c, xs)| == |xs| * c.size
  {
    if xs != [] { EncAllSize(c, xs[1..]); }
  }

  lemma {:induction false} EncAllAppend<T>(c: Codec<T>, xs: seq<T>, ys: seq<T>)
    ensures EncAll(c, xs + ys) == EncAll(c, xs) + EncAll(c, ys)
  {
    if xs == [] {
      assert xs + ys == ys;
    } else {
      assert (xs + ys)[1..] == xs[1..] + ys;
      EncAllAppend(c, xs[1..], ys);
    }
  }

  lemma EncAllOne<T>(c: Codec<T>, x: T)
    ensures EncAll(c, [x]) == c.enc(x)
  {
    assert [x][1..] == [];
  }

  /** Reading the first `n` of the records that were written. */
  lemma {:induction false} ReadAllOfEncAll<T(!new)>(c: Codec<T>, xs: seq<T>, rest: seq<Byte>, n: nat)
    requires Lawful(c) && n <= |xs|
    ensures n * c.size <= |EncAll(c, xs) + rest|
    ensures ReadAll(c, EncAll(c, xs) + rest, n) == xs[..n]
  {
    EncAllSize(c, xs);
    Fewer(n, |xs|, c.size);
    if n > 0 {
      var s, tail := EncAll(c, xs) + rest, EncAll(c, xs[1..]) + rest;
      assert s == c.enc(xs[0]) + tail;
      assert s[..c.size] == c.enc(xs[0]) && s[c.size..] == tail;
      ReadAllOfEncAll(c, xs[1..], rest, n - 1);
    }
  }

  lemma Fewer(n: nat, m: nat, size: nat)
    ensures n <= m ==> n * size <= m * size
  {
  }

  /** Where record `i` is, and what surrounds it. */
  lemma {:induction false} EncAllSplit<T(!new)>(c: Codec<T>, xs: seq<T>, i: nat)
    requires Lawful(c) && i < |xs|
    ensures |EncAll(c, xs[..i])| == i * c.size
    ensures EncAll(c, xs) == EncAll(c, xs[..i]) + c.enc(xs[i]) + EncAll(c, xs[i + 1..])
  {
    EncAllSize(c, xs[..i]);
    assert xs == xs[..i] + ([xs[i]] + xs[i + 1..]);
    EncAllAppend(c, xs[..i], [xs[i]] + xs[i + 1..]);
    EncAllAppend(c, [xs[i]], xs[i + 1..]);
    EncAllOne(c, xs[i]);
  }

  /** Overwriting part of one record. */
  lemma EncAllPatch<T(!new)>(c: Codec<T>, xs: seq<T>, i: nat, at: nat, bytes: seq<Byte>, x: T)
    requires Lawful(c) && i < |xs| && at + |bytes| <= c.size
    requires c.enc(x) == Patch(c.enc(xs[i]), at, bytes)
    ensures i * c.size + at + |bytes| <= |EncAll(c, xs)|
    ensures EncAll(c, xs[i := x]) == Patch(EncAll(c, xs), i * c.size + at, bytes)
  {
    var ys := xs[i := x];
    EncAllSplit(c, xs, i);
    EncAllSplit(c, ys, i);
    assert ys[..i] == xs[..i] && ys[i + 1..] == xs[i + 1..];
    var a, b, d := EncAll(c, xs[..i]), c.enc(xs[i]), EncAll(c, xs[i + 1..]);
    PatchMiddle(a, b, d, c.enc(x));
    PatchPatched(a, b, d, at, bytes);
  }

  /** Reading a field of one record. */
  lemma EncAllGet<T(!new)>(c: Codec<T>, xs: seq<T>, i: nat, at: nat, w: nat)
    requires Lawful(c) && i < |xs| && at + w <= c.size
    ensures i * c.size + at + w <= |EncAll(c, xs)|
    ensures Get(EncAll(c, xs), i * c.size + at, w) == Get(c.enc(xs[i]), at, w)
  {
    hide Get;
    EncAllSplit(c, xs, i);
    GetOfMiddle(EncAll(c, xs[..i]), c.enc(xs[i]), EncAll(c, xs[i + 1..]), at, w);
  }
}
