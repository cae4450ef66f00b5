/**
 The ring of the DMA bridge: a power-of-two number of slots, a tail that producers advance and a head that consumers
 advance. It is a bounded FIFO of one element less than it has slots.
 */
module DmaBridgeQueue {
  import opened ByteCodec
  import opened Division

  // ------------------------------------------------------------------------------------------------
  // Masking
  // ------------------------------------------------------------------------------------------------

  /** Bitwise and of two numbers. */
  function And(a: nat, b: nat): nat {
    if a == 0 || b == 0 then 0 else 2 * And(a / 2, b / 2) + (a % 2) * (b % 2)
  }

  function Pow2(k: nat): (p: nat)
    ensures p >= 1
  {
    if k == 0 then 1 else 2 * Pow2(k - 1)
  }

  lemma {:induction false} Pow2Grows(j: nat, k: nat)
    requires j <= k
    ensures Pow2(j) <= Pow2(k)
  {
    if j < k { Pow2Grows(j, k - 1); }
  }

  /** The remainder. */
  function Rem(a: nat, m: nat): nat
    requires m >= 1
  {
    a % m
  }

  /** Masking with a power of two less one is taking the remainder. */
  lemma {:induction false} MaskIsRem(a: nat, k: nat)
    ensures And(a, Pow2(k) - 1) == Rem(a, Pow2(k))
  {
    if k == 0 || a == 0 {
      NothingToMask(a, k);
    } else {
      hide And, Rem;
      MaskIsRem(a / 2, k - 1);
      MaskStep(a, Pow2(k - 1));
    }
  }

  /** One bit more. */
  lemma MaskStep(a: nat, p: nat)
    requires p >= 1 && And(a / 2, p - 1) == Rem(a / 2, p)
    ensures And(a, 2 * p - 1) == Rem(a, 2 * p)
  {
    hide And, Rem;
    HalfRem(a, p);
    AndSplit(a, p);
  }

  lemma NothingToMask(a: nat, k: nat)
    requires k == 0 || a == 0
    ensures And(a, Pow2(k) - 1) == 0 == Rem(a, Pow2(k))
  {
    ModUnique(a, if k == 0 then a else 0, 0, Pow2(k));
  }

  lemma AndSplit(a: nat, p: nat)
    requires p >= 1
    ensures And(a, 2 * p - 1) == 2 * And(a / 2, p - 1) + a % 2
  {
    assert (2 * p - 1) / 2 == p - 1 && (2 * p - 1) % 2 == 1;
    assert And(0, p - 1) == 0 && And(a / 2, 0) == 0;
  }

  lemma HalfRem(a: nat, p: nat)
    requires p >= 1
    ensures Rem(a, 2 * p) == 2 * Rem(a / 2, p) + a % 2
  {
    var h := a / 2;
    var q, r := h / p, h % p;
    assert h == q * p + r && a == 2 * h + a % 2;
    assert q * (2 * p) == 2 * (q * p);
    ModUnique(a, q, 2 * r + a % 2, 2 * p);
  }

  // ------------------------------------------------------------------------------------------------
  // Positions
  // ------------------------------------------------------------------------------------------------

  /** A position moved forward around the ring. */
  function Advance(pos: nat, n: nat, len: nat): (r: nat)
    requires pos < len && n <= len
    ensures r < len
  {
    if pos + n < len then pos + n else pos + n - len
  }

  lemma OnceAround(x: nat, len: nat)
    requires len >= 1
    ensures x < 2 * len ==> Rem(x, len) == if x < len then x else x - len
  {
    if x < len {
      ModUnique(x, 0, x, len);
    } else if x < 2 * len {
      ModUnique(x, 1, x - len, len);
    }
  }

  /** How far the tail is ahead of the head. */
  function Used(hp: nat, tp: nat, len: nat): (n: nat)
    requires hp < len && tp < len
    ensures n < len
  {
    if tp >= hp then tp - hp else tp - hp + len
  }

  /** The `n` slots from a position on. */
  function Slots(pos: nat, n: nat, len: nat): (s: seq<nat>)
    requires pos < len && n <= len
    ensures |s| == n && forall i :: 0 <= i < n ==> s[i] == Advance(pos, i, len)
  {
    seq(n, i requires 0 <= i < n => Advance(pos, i, len))
  }

  /** Slots around the ring do not repeat. */
  lemma SlotsDiffer(pos: nat, i: nat, j: nat, len: nat)
    requires pos < len && i < j < len
    ensures Advance(pos, i, len) != Advance(pos, j, len)
  {
  }

  /** The used slots and the free slots are different, and they are all but the one before the head. */
  lemma SlotsPartition(hp: nat, tp: nat, len: nat, slot: nat)
    requires hp < len && tp < len && slot < len
    ensures var used, free := Slots(hp, Used(hp, tp, len), len), Slots(tp, len - 1 - Used(hp, tp, len), len);
            && !(slot in used && slot in free)
            && (slot in used || slot in free <==> slot != Advance(hp, len - 1, len))
  {
    var n := Used(hp, tp, len);
    var used, free := Slots(hp, n, len), Slots(tp, len - 1 - n, len);
    var i := Used(hp, slot, len);
    assert Advance(hp, i, len) == slot;
    if i < n {
      assert used[i] == slot;
    } else if i < len - 1 {
      assert free[i - n] == slot;
    }
    forall k | 0 <= k < n ensures used[k] == slot ==> k == i {}
    forall k | 0 <= k < len - 1 - n ensures free[k] == slot ==> n + k == i {}
  }

  lemma TailMoves(hp: nat, tp: nat, n: nat, len: nat)
    requires hp < len && tp < len && n <= len - 1 - Used(hp, tp, len)
    ensures var tp', used := Advance(tp, n, len), Used(hp, tp, len);
            && Used(hp, tp', len) == used + n
            && Slots(hp, used + n, len) == Slots(hp, used, len) + Slots(tp, len - 1 - used, len)[..n]
            && Slots(tp', len - 1 - used - n, len) == Slots(tp, len - 1 - used, len)[n..]
  {
  }

  lemma HeadMoves(hp: nat, tp: nat, n: nat, len: nat)
    requires hp < len && tp < len && n <= Used(hp, tp, len)
    ensures var hp', used := Advance(hp, n, len), Used(hp, tp, len);
            Used(hp', tp, len) == used - n && Slots(hp', used - n, len) == Slots(hp, used, len)[n..]
  {
  }

  // ------------------------------------------------------------------------------------------------
  // Contents
  // ------------------------------------------------------------------------------------------------

  /** A position moved forward by masking the sum. */
  function Masked(pos: nat, n: nat, len: nat): nat
    requires len >= 1
  {
    And(pos + n, len - 1)
  }

  lemma MaskedIsAdvance(pos: nat, n: nat, k: nat)
    requires pos < Pow2(k) && n <= Pow2(k)
    ensures Masked(pos, n, Pow2(k)) == Advance(pos, n, Pow2(k))
  {
    hide And, Pow2;
    MaskIsRem(pos + n, k);
    OnceAround(pos + n, Pow2(k));
  }

  /** The memory with elements written to the slots from `pos` on, around the ring. */
  function Filled<T>(memory: seq<T>, pos: nat, xs: seq<T>): (r: seq<T>)
    requires pos < |memory|
    ensures |r| == |memory|
    decreases |xs|
  {
    if xs == [] then memory else Filled(memory[pos := xs[0]], Advance(pos, 1, |memory|), xs[1..])
  }

  /** The ring with its memory, by value; its pointers move as `AdvanceTP` and `AdvanceHP` of the class move them. */
  datatype Contents<T> = Contents(lenPow2: nat, memory: seq<T>, hp: nat, tp: nat) {
    predicate Valid() { |memory| == Pow2(lenPow2) && hp < |memory| && tp < |memory| }

    /** What the consumer will read, oldest first. */
    function Items(): (s: seq<T>)
      requires Valid()
      ensures |s| == Used(hp, tp, |memory|)
    {
      seq(Used(hp, tp, |memory|), i requires 0 <= i < Used(hp, tp, |memory|) => memory[Advance(hp, i, |memory|)])
    }

    /** The producer fills the next slots and advances the tail by as many; legal when they are free. */
    function Put(xs: seq<T>): Contents<T>
      requires Valid()
    {
      Contents(lenPow2, Filled(memory, tp, xs), hp, Masked(tp, |xs|, |memory|))
    }

    /** The consumer has read the oldest slots and advances the head by as many; legal when it owns them. */
    function Get(n: nat): Contents<T>
      requires Valid()
    {
      Contents(lenPow2, memory, Masked(hp, n, |memory|), tp)
    }
  }

  lemma PutOne<T>(c: Contents<T>, x: T)
    requires c.Valid() && |c.Items()| < |c.memory| - 1
    ensures var d := Contents(c.lenPow2, c.memory[c.tp := x], c.hp, Advance(c.tp, 1, |c.memory|));
            d.Valid() && d.Items() == c.Items() + [x]
  {
    hide Pow2;
    var len, n := |c.memory|, |c.Items()|;
    var d := Contents(c.lenPow2, c.memory[c.tp := x], c.hp, Advance(c.tp, 1, len));
    forall i | 0 <= i < n ensures d.Items()[i] == c.Items()[i] { SlotsDiffer(c.hp, i, n, len); }
    assert d.Items() == c.Items() + [x];
  }

  /** Advancing the tail over filled slots appends what was written there. */
  lemma {:induction false} PutAppends<T>(c: Contents<T>, xs: seq<T>)
    requires c.Valid() && |c.Items()| + |xs| <= |c.memory| - 1
    ensures c.Put(xs).Valid() && c.Put(xs).Items() == c.Items() + xs
    decreases |xs|
  {
    hide Pow2, Masked, Contents.Items;
    var len := |c.memory|;
    MaskedIsAdvance(c.tp, |xs|, c.lenPow2);
    if xs != [] {
      var d := Contents(c.lenPow2, c.memory[c.tp := xs[0]], c.hp, Advance(c.tp, 1, len));
      PutOne(c, xs[0]);
      PutAppends(d, xs[1..]);
      MaskedIsAdvance(d.tp, |xs| - 1, c.lenPow2);
      assert xs == [xs[0]] + xs[1..];
      assert c.Items() + [xs[0]] + xs[1..] == c.Items() + xs;
    }
  }

  /** Advancing the head drops the oldest elements. */
  lemma GetDrops<T>(c: Contents<T>, n: nat)
    requires c.Valid() && n <= |c.Items()|
    ensures c.Get(n).Valid() && c.Get(n).Items() == c.Items()[n..]
  {
    hide Pow2, Masked;
    MaskedIsAdvance(c.hp, n, c.lenPow2);
    HeadMoves(c.hp, c.tp, n, |c.memory|);
  }

  datatype Op<T> = PutOp(xs: seq<T>) | GetOp(n: nat)

  /** No more is put than there is space for, and no more taken than there is. */
  predicate Legal<T>(op: Op<T>, count: nat, capacity: nat) {
    match op
    case PutOp(xs) => count + |xs| <= capacity
    case GetOp(n) => n <= count
  }

  /** What a run of operations reads from the ring; it stops in front of an illegal one. */
  function RunRing<T>(c: Contents<T>, ops: seq<Op<T>>): seq<T>
    requires c.Valid()
    decreases |ops|
  {
    if ops == [] || !Legal(ops[0], |c.Items()|, |c.memory| - 1) then []
    else
      match ops[0]
      case PutOp(xs) => PutAppends(c, xs); RunRing(c.Put(xs), ops[1..])
      case GetOp(n) => GetDrops(c, n); c.Items()[..n] + RunRing(c.Get(n), ops[1..])
  }

  /** The same run on a queue that holds at most `capacity` elements. */
  function RunQueue<T>(q: seq<T>, capacity: nat, ops: seq<Op<T>>): seq<T>
    decreases |ops|
  {
    if ops == [] || !Legal(ops[0], |q|, capacity) then []
    else
      match ops[0]
      case PutOp(xs) => RunQueue(q + xs, capacity, ops[1..])
      case GetOp(n) => q[..n] + RunQueue(q[n..], capacity, ops[1..])
  }

  /** The ring refines a FIFO queue whose capacity is one less than its slots: every legal run reads the same. */
  lemma {:induction false} RingIsBoundedFifo<T>(c: Contents<T>, ops: seq<Op<T>>)
    requires c.Valid()
    ensures RunRing(c, ops) == RunQueue(c.Items(), |c.memory| - 1, ops)
    decreases |ops|
  {
    hide Pow2, Contents.Items, Masked;
    if ops != [] && Legal(ops[0], |c.Items()|, |c.memory| - 1) {
      match ops[0]
      case PutOp(xs) =>
        PutAppends(c, xs);
        RingIsBoundedFifo(c.Put(xs), ops[1..]);
      case GetOp(n) =>
        GetDrops(c, n);
        RingIsBoundedFifo(c.Get(n), ops[1..]);
    }
  }

  // ------------------------------------------------------------------------------------------------
  // The ring
  // ------------------------------------------------------------------------------------------------

  class Ring {
    const base: nat
    const lenPow2: nat
    const len: nat
    const itemSize: nat
    var tp: nat
    var hp: nat

    predicate Valid()
      reads this
    {
      1 <= lenPow2 <= 16 && len == Pow2(lenPow2) && tp < len && hp < len
    }

    /** The slots the consumer owns, oldest first. */
    function Owned(): seq<nat>
      requires Valid()
      reads this
    {
      Slots(hp, Used(hp, tp, len), len)
    }

    /** The slots the producer may fill, in order. */
    function Free(): seq<nat>
      requires Valid()
      reads this
    {
      Slots(tp, len - 1 - Used(hp, tp, len), len)
    }

    constructor (base: nat, lenPow2: nat, itemSize: nat)
      requires 1 <= lenPow2 <= 16
      ensures Valid() && Owned() == [] && this.base == base && this.itemSize == itemSize && this.lenPow2 == lenPow2
    {
      this.base, this.lenPow2, this.itemSize, len := base, lenPow2, itemSize, Pow2(lenPow2);
      tp, hp := 0, 0;
    }

    /** A position behind the end comes back to the start. */
    function Mask(x: nat): (r: nat)
      requires Valid()
      reads this
      ensures x < 2 * len ==> r == if x < len then x else x - len
    {
      MaskIsRem(x, lenPow2);
      OnceAround(x, len);
      And(x, len - 1)
    }

    lemma LenIsSmall()
      requires Valid()
      ensures 2 <= len <= 65536
    {
      Pow2Grows(1, lenPow2);
      Pow2Grows(lenPow2, 16);
      Sixteen();
    }

    function IsFull(): (r: bool)
      requires Valid()
      reads this
      ensures r <==> |Free()| == 0
    {
      LenIsSmall();
      hp == Mask(tp + 1)
    }

    function IsEmpty(): (r: bool)
      requires Valid()
      reads this
      ensures r <==> |Owned()| == 0
    {
      hp == tp
    }

    /** The 32-bit arithmetic of the code: the difference wraps, and the sum wraps back. */
    function Count(): (n: nat)
      requires Valid()
      reads this
      ensures n == |Owned()|
    {
      LenIsSmall();
      Wraps(hp, tp, len);
      Rem(((tp - hp) % TWO32 + len) % TWO32, len)
    }

    function Space(): (n: nat)
      requires Valid()
      reads this
      ensures n == |Free()| && Count() + n == len - 1
    {
      LenIsSmall();
      hide Count, Pow2, Used, Slots;
      Fits32(len - Count() - 1);
      (len - Count() - 1) % TWO32
    }

    /** Fills `n` slots: legal as long as they are free. */
    method AdvanceTP(n: nat)
      requires Valid() && n < len
      modifies `tp
      ensures Valid() && tp == Masked(old(tp), n, len)
      ensures |Owned()| == old(|Owned()|) + n <==> n <= old(|Free()|)
      ensures n <= old(|Free()|) ==>
        Owned() == old(Owned()) + old(Free())[..n] && Free() == old(Free())[n..]
    {
      ghost var was := tp;
      tp := Mask(tp + n);
      hide Pow2, Mask;
      if n <= len - 1 - Used(hp, was, len) { TailMoves(hp, was, n, len); }
    }

    /** Releases `n` slots: legal as long as the consumer owns them. */
    method AdvanceHP(n: nat)
      requires Valid() && n < len
      modifies `hp
      ensures Valid() && hp == Masked(old(hp), n, len)
      ensures |Owned()| == old(|Owned()|) - n <==> n <= old(|Owned()|)
      ensures n <= old(|Owned()|) ==> Owned() == old(Owned())[n..] && |Free()| == old(|Free()|) + n
    {
      ghost var was := hp;
      hp := Mask(hp + n);
      hide Pow2, Mask;
      if n <= Used(was, tp, len) { HeadMoves(was, tp, n, len); }
    }

    method SetTP(tp: nat)
      requires Valid() && tp < len
      modifies `tp
      ensures Valid() && this.tp == tp
    {
      this.tp := tp;
    }

    method SetHP(hp: nat)
      requires Valid() && hp < len
      modifies `hp
      ensures Valid() && this.hp == hp
    {
      this.hp := hp;
    }

    /** Where a slot lies. */
    function AddressOf(slot: nat): nat { base + slot * itemSize }

    function Addresses(slots: seq<nat>): (r: seq<nat>)
      ensures |r| == |slots|
    {
      seq(|slots|, i requires 0 <= i < |slots| => AddressOf(slots[i]))
    }

    lemma NoAddresses(slots: seq<nat>)
      ensures Addresses(slots[..0]) == []
    {
    }

    lemma NextAddress(slots: seq<nat>, i: nat)
      requires i < |slots|
      ensures Addresses(slots[..i + 1]) == Addresses(slots[..i]) + [AddressOf(slots[i])]
    {
      hide AddressOf;
    }

    /** The first `k` of `n` slots from `pos` on. */
    function FirstAddresses(pos: nat, n: nat, k: nat): (r: seq<nat>)
      requires pos < len && k <= n <= len
      ensures |r| == k
    {
      Addresses(Slots(pos, n, len)[..k])
    }

    /** They lie one after the other, around the ring, and within its memory. */
    lemma AddressNo(pos: nat, n: nat, k: nat, i: nat)
      requires Valid() && pos < len && i < k <= n <= len
      ensures var r, slot := FirstAddresses(pos, n, k)[i], (pos + i) % len;
              && slot == Slots(pos, n, len)[i] < len && r == base + slot * itemSize
              && base <= r && r + itemSize <= base + len * itemSize
    {
      hide Pow2;
      OnceAround(pos + i, len);
      ItemsApart(Slots(pos, n, len)[i], len, itemSize);
    }

    /** No two of them share a byte. */
    lemma AddressesApart(pos: nat, n: nat, k: nat, i: nat, j: nat)
      requires Valid() && pos < len && i < j < k <= n <= len
      ensures var r := FirstAddresses(pos, n, k); r[i] + itemSize <= r[j] || r[j] + itemSize <= r[i]
    {
      AddressNo(pos, n, k, i);
      AddressNo(pos, n, k, j);
      SlotsDiffer(pos, i, j, len);
      hide FirstAddresses, Pow2;
      var a, b := Slots(pos, n, len)[i], Slots(pos, n, len)[j];
      ItemsApart(a, b, itemSize);
      ItemsApart(b, a, itemSize);
    }

    /** Appends the addresses of the next free slots, at most `n`; the result is the size of the vector, 0 when full. */
    method GetNextNForProducer(n: nat, vec: seq<nat>) returns (r: nat, vec': seq<nat>)
      requires Valid()
      ensures var k := if n < |Free()| then n else |Free()|; vec' == vec + FirstAddresses(tp, |Free()|, k)
      ensures r == if |Free()| == 0 then 0 else |vec'|
    {
      ghost var free := Free();
      hide Pow2, Mask, Addresses, Used, Slots, AddressOf;
      var pos, min := tp, if n < Space() then n else Space();
      vec' := vec;
      NoAddresses(free);
      if IsFull() { return 0, vec; }
      for i := 0 to min
        invariant pos == Advance(tp, i, len) && vec' == vec + Addresses(free[..i])
      {
        vec' := vec' + [AddressOf(pos)];
        NextAddress(free, i);
        pos := Mask(pos + 1);
      }
      r := |vec'|;
    }

    /** Appends the addresses of the first `n` owned slots, or of all when `n` is 0. */
    method GetConsumerOwned(n: nat, vec: seq<nat>) returns (r: nat, vec': seq<nat>)
      requires Valid()
      ensures var k := if 0 < n < |Owned()| then n else |Owned()|; vec' == vec + FirstAddresses(hp, |Owned()|, k)
      ensures r == if |Owned()| == 0 then 0 else |vec'|
    {
      ghost var owned := Owned();
      assert tp == Advance(hp, |owned|, len) && forall k :: 0 <= k < |owned| ==> Advance(hp, k, len) != tp;
      hide Pow2, Mask, Addresses, Used, Slots, AddressOf;
      var pos, i := hp, 0;
      vec' := vec;
      NoAddresses(owned);
      if IsEmpty() { return 0, vec; }
      ghost var j := 0;
      while pos != tp
        invariant j <= |owned| && pos == Advance(hp, j, len) && (n > 0 ==> i == j < n)
        invariant vec' == vec + Addresses(owned[..j])
        decreases |owned| - j
      {
        vec' := vec' + [AddressOf(pos)];
        NextAddress(owned, j);
        pos := Mask(pos + 1);
        j := j + 1;
        if n > 0 {
          i := i + 1;
          if i == n { break; }
        }
      }
      r := |vec'|;
    }
  }

  lemma ItemsApart(a: nat, b: nat, itemSize: nat)
    ensures a < b ==> a * itemSize + itemSize <= b * itemSize
  {
    if a < b { MulMono(a + 1, b, itemSize); }
  }

  lemma Sixteen()
    ensures Pow2(16) == 65536
  {
    assert Pow2(4) == 16;
    assert Pow2(8) == 16 * Pow2(4);
    assert Pow2(12) == 16 * Pow2(8);
    assert Pow2(16) == 16 * Pow2(12);
  }

  lemma Fits32(x: nat)
    ensures x < TWO32 ==> x % TWO32 == x
  {
  }

  lemma Wraps(hp: nat, tp: nat, len: nat)
    requires hp < len && tp < len <= 65536
    ensures Rem(((tp - hp) % TWO32 + len) % TWO32, len) == Used(hp, tp, len)
  {
    var sum := ((tp - hp) % TWO32 + len) % TWO32;
    assert sum == tp - hp + len by { hide Rem; }
    OnceAround(sum, len);
  }
}
