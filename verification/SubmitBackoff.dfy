/** Submitting a batch to a busy device: progressive waits between a bounded number of attempts. */
module SubmitBackoff {
  import opened Wrappers
  import opened ByteCodec

  const SUBMIT_RETRY_MAX := 50
  const SUBMIT_RETRY_TIMEOUT_US := 5000

  /** The outcome of one execute command: EAGAIN asks for a retry. */
  datatype Outcome = Accepted | TryAgain | Failed

  /** The k-th wait, counted from 1. */
  function WaitNo(base: nat, k: nat): nat
    requires k >= 1
  {
    base * (1 + k * (k - 1) / 2)
  }

  /** The first `n` waits together. */
  function TotalWait(base: nat, n: nat): nat {
    if n == 0 then 0 else TotalWait(base, n - 1) + WaitNo(base, n)
  }

  lemma NextWait(base: nat, k: nat)
    requires k >= 1
    ensures WaitNo(base, k + 1) == WaitNo(base, k) + base * k
  {
    assert (k + 1) * k == k * (k - 1) + 2 * k;
    assert (k + 1) * k / 2 == k * (k - 1) / 2 + k;
  }

  /** The same step in 32 bits. */
  lemma NextWait32(base: nat, k: nat)
    requires k >= 1
    ensures (WaitNo(base, k) % TWO32 + base * k) % TWO32 == WaitNo(base, k + 1) % TWO32
  {
    hide WaitNo;
    NextWait(base, k);
    ReduceFirst(WaitNo(base, k), base * k);
  }

  lemma ReduceFirst(x: nat, y: nat)
    ensures (x % TWO32 + y) % TWO32 == (x + y) % TWO32
  {
  }

  lemma {:induction false} LaterWaitsAreLonger(base: nat, j: nat, k: nat)
    requires 1 <= j <= k
    ensures WaitNo(base, j) <= WaitNo(base, k)
  {
    hide WaitNo;
    if j < k {
      LaterWaitsAreLonger(base, j, k - 1);
      NextWait(base, k - 1);
    }
  }

  /** The first `n` waits in units of the base. */
  function Units(n: nat): nat {
    if n == 0 then 0 else Units(n - 1) + (1 + n * (n - 1) / 2)
  }

  /** Six times the units of n waits. */
  lemma {:induction false} UnitsAre(n: nat)
    ensures 6 * Units(n) == 6 * n + n * (n - 1) * (n + 1)
  {
    if n > 0 {
      UnitsAre(n - 1);
      Halves(n);
      Cubes(n);
    }
  }

  lemma Cubes(n: nat)
    requires n >= 1
    ensures (n - 1) * (n - 2) * n + 3 * (n * (n - 1)) == n * (n - 1) * (n + 1)
  {
    var p := n * (n - 1);
    assert (n - 1) * (n - 2) * n == p * (n - 2);
    assert p * (n - 2) + 3 * p == p * (n + 1);
  }

  /** The total of n waits is base (n + (n - 1)n(n + 1) / 6). */
  lemma {:induction false} TotalWaitIs(base: nat, n: nat)
    ensures TotalWait(base, n) == base * Units(n)
  {
    if n > 0 {
      TotalWaitIs(base, n - 1);
      OneMore(base, Units(n - 1), 1 + n * (n - 1) / 2);
    }
  }

  lemma OneMore(base: nat, u: nat, w: nat)
    ensures base * u + base * w == base * (u + w)
  {
  }

  lemma HalfOf(p: nat, m: nat)
    requires 2 * (p / 2) == p
    ensures 2 * ((p + 2 * m) / 2) == p + 2 * m
  {
  }

  lemma {:induction false} Halves(n: nat)
    requires n >= 1
    ensures 2 * (n * (n - 1) / 2) == n * (n - 1)
  {
    if n > 1 {
      var p := (n - 1) * (n - 2);
      assert n * (n - 1) == p + 2 * (n - 1);
      Halves(n - 1);
      HalfOf(p, n - 1);
    }
  }

  /** How many commands at the start are answered with EAGAIN, up to `limit`. */
  function Refusals(device: nat -> Outcome, limit: nat): (n: nat)
    ensures n <= limit
    ensures forall k :: 0 <= k < n ==> device(k) == TryAgain
    ensures n < limit ==> device(n) != TryAgain
  {
    if limit == 0 then 0
    else
      var n := Refusals(device, limit - 1);
      if n == limit - 1 && device(n) == TryAgain then limit else n
  }

  function Sum(waits: seq<nat>): nat {
    if waits == [] then 0 else Sum(waits[..|waits| - 1]) + waits[|waits| - 1]
  }

  /** Each wait is the closed form, cut to 32 bits. */
  predicate WaitsAre(base: nat, waits: seq<nat>) {
    forall k :: 1 <= k <= |waits| ==> waits[k - 1] == WaitNo(base, k) % TWO32
  }

  /** All waits together are at most the closed form, and exactly that unless a wait exceeds 32 bits. */
  lemma {:induction false} SumIs(base: nat, waits: seq<nat>)
    requires WaitsAre(base, waits)
    ensures Sum(waits) <= TotalWait(base, |waits|)
    ensures waits == [] || WaitNo(base, |waits|) < TWO32 ==> Sum(waits) == TotalWait(base, |waits|)
    decreases |waits|
  {
    hide WaitNo;
    if waits != [] {
      var n := |waits|;
      SumIs(base, waits[..n - 1]);
      if n > 1 { LaterWaitsAreLonger(base, n - 1, n); }
    }
  }

  /** A limit of zero still lets one command out. */
  function Limit(max: nat): nat { if max == 0 then 1 else max }

  /** What a call does that starts with wait `base` and gives up at `max` refusals. */
  predicate Executed(device: nat -> Outcome, profiling: Status, queueFits: bool, base: nat, max: nat,
                     status: Status, issued: nat, waits: seq<nat>)
  {
    var limit := Limit(max);
    var n := Refusals(device, limit);
    && WaitsAre(base, waits)
    && if n > 0 && (profiling != Success || !queueFits) then
         issued == 1 && waits == [] && status == if profiling != Success then profiling else Error
       else if n == limit then status == Busy && issued == limit && |waits| == limit - 1
       else issued == n + 1 && |waits| == n && status == if device(n) == Accepted then Success else Error
  }

  /**
   The loop of `runExecute`: the command is issued until it is not refused with EAGAIN, at most `max` times. A queue
   that is too small, or that cannot be queried, ends it at the first refusal.
   */
  method RunExecute(device: nat -> Outcome, profiling: Status, queueFits: bool, base: U32, max: U32)
    returns (status: Status, issued: nat, waits: seq<nat>)
    ensures Executed(device, profiling, queueFits, base, max, status, issued, waits)
    ensures 1 <= issued <= Limit(max) && |waits| < Limit(max)
    ensures 6 * Sum(waits) <= base * (6 * |waits| + |waits| * (|waits| - 1) * (|waits| + 1))
    ensures waits == [] || WaitNo(base, |waits|) < TWO32 ==>
              6 * Sum(waits) == base * (6 * |waits| + |waits| * (|waits| - 1) * (|waits| + 1))
  {
    hide WaitNo, Refusals, Sum;
    var retryCount, progressiveUs: U32, first := 0, base, true;
    waits, issued := [], 0;
    FirstWait(base);
    NoWaits(base);
    while true
      invariant issued == |waits| == retryCount < Limit(max) && first == (retryCount == 0)
      invariant forall k :: 0 <= k < retryCount ==> device(k) == TryAgain
      invariant retryCount > 0 ==> profiling == Success && queueFits
      invariant progressiveUs == WaitNo(base, retryCount + 1) % TWO32 && WaitsAre(base, waits)
      invariant TotalFits(base, waits)
      decreases Limit(max) - retryCount
    {
      var outcome := device(issued);
      issued := issued + 1;
      RefusalsAre(device, Limit(max), retryCount);
      if outcome == Accepted { return Success, issued, waits; }
      if outcome == Failed { return Error, issued, waits; }
      if first {
        first := false;
        if profiling != Success { return profiling, issued, waits; }
        if !queueFits { return Error, issued, waits; }
      }
      retryCount := retryCount + 1;
      if retryCount >= max { return Busy, issued, waits; }
      waits := waits + [progressiveUs];
      TotalIs(base, waits);
      NextWait32(base, retryCount);
      progressiveUs := (progressiveUs + base * retryCount) % TWO32;
    }
  }

  /** The total of the waits against n + (n - 1)n(n + 1) / 6 times the base. */
  predicate TotalFits(base: nat, waits: seq<nat>) {
    var n := |waits|;
    && 6 * Sum(waits) <= base * (6 * n + n * (n - 1) * (n + 1))
    && (waits == [] || WaitNo(base, n) < TWO32 ==> 6 * Sum(waits) == base * (6 * n + n * (n - 1) * (n + 1)))
  }

  lemma TotalIs(base: nat, waits: seq<nat>)
    requires WaitsAre(base, waits)
    ensures TotalFits(base, waits)
  {
    hide WaitNo, Units, TotalWait, Sum;
    var n := |waits|;
    SumIs(base, waits);
    TotalWaitIs(base, n);
    UnitsAre(n);
    assert base * (6 * Units(n)) == 6 * (base * Units(n));
  }

  lemma FirstWait(base: U32)
    ensures WaitNo(base, 1) % TWO32 == base
  {
  }

  lemma NoWaits(base: nat)
    ensures WaitsAre(base, []) && TotalFits(base, [])
  {
  }

  lemma RefusalsAre(device: nat -> Outcome, limit: nat, n: nat)
    requires n < limit && forall k :: 0 <= k < n ==> device(k) == TryAgain
    ensures device(n) != TryAgain ==> Refusals(device, limit) == n
    ensures device(n) == TryAgain ==> Refusals(device, limit) > n
    ensures Refusals(device, limit) <= limit
  {
  }

  /**
   With the driver's constants no call waits longer than 98.245 seconds in all, and a call that gives up after fifty
   refusals has waited exactly that long.
   */
  lemma LongestWait(device: nat -> Outcome, profiling: Status, queueFits: bool, status: Status, issued: nat,
                    waits: seq<nat>)
    requires Executed(device, profiling, queueFits, SUBMIT_RETRY_TIMEOUT_US, SUBMIT_RETRY_MAX, status, issued, waits)
    ensures Sum(waits) <= 98_245_000
    ensures issued == SUBMIT_RETRY_MAX && status == Busy ==> Sum(waits) == 98_245_000
    ensures status == Busy && profiling == Success ==> issued == SUBMIT_RETRY_MAX
  {
    hide Sum, Units, TotalWait;
    var n := |waits|;
    SumIs(SUBMIT_RETRY_TIMEOUT_US, waits);
    TotalWaitIs(SUBMIT_RETRY_TIMEOUT_US, n);
    TotalWaitIs(SUBMIT_RETRY_TIMEOUT_US, SUBMIT_RETRY_MAX - 1);
    UnitsAre(SUBMIT_RETRY_MAX - 1);
    UnitsGrow(n, SUBMIT_RETRY_MAX - 1);
  }

  /**
   The last answer decides: every one before it asked for a retry, and the queue was found to be large enough. A call
   gives up as busy exactly when the last command allowed was refused too.
   */
  lemma LastAnswerDecides(device: nat -> Outcome, profiling: Status, queueFits: bool, base: nat, max: nat,
                          status: Status, issued: nat, waits: seq<nat>)
    requires Executed(device, profiling, queueFits, base, max, status, issued, waits)
    ensures 1 <= issued && (issued <= max || issued == 1) && |waits| == issued - 1
    ensures forall k :: 0 <= k < issued - 1 ==> device(k) == TryAgain
    ensures forall k :: 0 <= k < issued - 1 ==> waits[k] == base * (1 + (k + 1) * k / 2) % TWO32
    ensures issued > 1 ==> profiling == Success && queueFits
    ensures match device(issued - 1)
            case Accepted => status == Success
            case Failed => status == Error
            case TryAgain =>
              if profiling != Success then status == profiling
              else if !queueFits then status == Error
              else status == Busy && (issued == max || max == 0)
  {
    forall k | 0 <= k < |waits| ensures waits[k] == base * (1 + (k + 1) * k / 2) % TWO32 {
      assert waits[k] == WaitNo(base, k + 1) % TWO32;
      assert WaitNo(base, k + 1) == base * (1 + (k + 1) * (k + 1 - 1) / 2);
    }
    hide WaitsAre, WaitNo;
  }

  lemma {:induction false} UnitsGrow(m: nat, n: nat)
    requires m <= n
    ensures Units(m) <= Units(n)
  {
    if m < n { UnitsGrow(m, n - 1); }
  }
}
