/**
 Draining the signal queue of the program's state machine: the invariant every dispatch keeps, when the drain
 ends, and what it ends in.
 */
module ProgramDrain {
  import opened ProgramHsm

  // ------------------------------------------------------------------------------------------------
  // Reachable configurations
  // ------------------------------------------------------------------------------------------------

  /** The signals that callers and the device monitor post. */
  predicate External(sig: Signal) {
    sig in {Load, Unload, Activate, Deactivate, DeviceUp, DeviceDown, VcUp, VcDown}
  }

  predicate Completion(sig: Signal) {
    sig in {LoadComplete, LoadFail, UnloadComplete, ActivateComplete, ActivateFail, DeactivateComplete}
  }

  /** The states in which the machine waits for the next external signal. */
  predicate Resting(s: State) {
    s in {Created, Loaded, AcReady, ActivateFailed, LoadFailed, DeviceError}
  }

  /** Just after a construction whose device query failed, INIT_ERROR waits to be drained. */
  predicate InitErrorPending(c: Config) {
    c.state == Created && Is1(c.signals, InitError) && !c.validated
  }

  /** Between two calls: an empty queue in a resting state, or a pending INIT_ERROR. */
  predicate Rest(c: Config) {
    && Resources(c)
    && ((Resting(c.state) && c.signals == [] && (c.state == Created ==> c.validated)) || InitErrorPending(c))
  }

  predicate Is1(q: seq<Signal>, a: Signal) { |q| == 1 && q[0] == a }

  predicate Is2(q: seq<Signal>, a: Signal, b: Signal) { |q| == 2 && q[0] == a && q[1] == b }

  predicate Is3(q: seq<Signal>, a: Signal, b: Signal, d: Signal) {
    |q| == 3 && q[0] == a && q[1] == b && q[2] == d
  }

  predicate ExternalOnly(q: seq<Signal>) { |q| == 1 && External(q[0]) }

  /** Is `sig` among the first three queued signals? No queue grows longer while it is drained. */
  predicate Queued(q: seq<Signal>, sig: Signal) {
    (|q| > 0 && q[0] == sig) || (|q| > 1 && q[1] == sig) || (|q| > 2 && q[2] == sig)
  }

  /** The queues that can occur in each state while a signal posted at rest is drained. */
  predicate QueueShape(c: Config) {
    var q := c.signals;
    match c.state
    case Created =>
      if c.validated then q == [] || ExternalOnly(q) || Is2(q, Load, Activate)
      else || Is1(q, InitError) || (|q| == 2 && q[0] == InitError && External(q[1]))
           || (|q| == 2 && External(q[0]) && q[1] == DeviceDown)
           || Is1(q, DeviceDown) || Is3(q, DeviceDown, Load, Activate)
    case Loading =>
      if c.validated then
        || Is1(q, LoadComplete) || Is2(q, Activate, LoadComplete) || Is3(q, LoadComplete, Load, Activate)
        || Is1(q, LoadFail) || Is2(q, Activate, LoadFail) || Is3(q, LoadFail, Load, Activate)
      else Is2(q, DeviceDown, LoadComplete) || Is2(q, DeviceDown, LoadFail)
    case Unloading => Is1(q, UnloadComplete)
    case Loaded => q == [] || ExternalOnly(q) || Is2(q, Load, Activate)
    case Activating => Is1(q, ActivateComplete) || Is1(q, ActivateFail)
    case ActivateFailed => q == [] || ExternalOnly(q)
    case AcReady => q == [] || (ExternalOnly(q) && q[0] != Activate)
    case AcDeactivating => Is1(q, DeactivateComplete) || Is1(q, DeviceDown)
    case LoadFailed => q == [] || ExternalOnly(q) || Is2(q, Load, Activate)
    case DeviceError =>
      || q == [] || ExternalOnly(q) || Is1(q, LoadComplete) || Is1(q, LoadFail) || Is2(q, Load, Activate)
    case _ => false
  }

  /** What each state and each pending completion says about the image, the network and the validation. */
  predicate Resources(c: Config) {
    && (UnderLoaded(c.state) || Queued(c.signals, LoadComplete) ==> c.deviceImage.Some? && c.nnImage.Some?)
    && (c.state == AcReady || Queued(c.signals, ActivateComplete) ==> c.qnn.Some?)
    && (Queued(c.signals, DeactivateComplete) ==> c.qnn.None?)
    && (c.state == DeviceError ==> !c.validated)
    && (!c.validated ==> c.state in {Created, Loading, DeviceError})
  }

  /** The invariant of the drain. */
  predicate Inv(c: Config) {
    QueueShape(c) && Resources(c)
  }

  /** Posting at rest is allowed for every external signal, except ACTIVATE to a ready program. */
  predicate Postable(c: Config, sig: Signal) {
    External(sig) && !(c.state == AcReady && sig == Activate)
  }

  lemma InvLeaf(c: Config)
    requires Inv(c)
    ensures Leaf(c.state)
  {
  }

  /** Posting a signal at rest establishes the invariant. */
  lemma PostEstablishesInv(c: Config, sig: Signal)
    requires Rest(c) && Postable(c, sig)
    ensures Inv(Push(c, sig))
  {
  }

  /** Every dispatch keeps the invariant. */
  lemma StepKeepsInv(env: Env, c: Config)
    requires Inv(c) && c.signals != []
    ensures Inv(Step(env, c))
  {
    StepIs(env, c);
    match c.state
    case Created => FlatStepFromCreated(env, c);
    case Loading => FlatStepFromLoading(env, c);
    case Unloading => FlatStepFromUnloading(env, c);
    case Loaded | Activating => FlatStepFromLoaded(env, c);
    case DeviceError => FlatStepFromError(env, c);
    case LoadFailed => FlatStepFromLoadFailed(env, c);
    case _ => FlatStepFromActive(env, c);
  }

  /** Popping the front of a queue of known length. */
  lemma Popped(q: seq<Signal>)
    ensures |q| == 1 ==> q[1..] == []
    ensures |q| == 2 ==> q[1..] == [q[1]]
    ensures |q| == 3 ==> q[1..] == [q[1], q[2]]
    ensures forall x :: |q| == 1 ==> q[1..] + [x] == [x]
    ensures forall x :: |q| == 2 ==> q[1..] + [x] == [q[1], x]
    ensures forall x, y :: |q| == 1 ==> q[1..] + [x] + [y] == [x, y]
    ensures forall x, y :: |q| == 2 ==> q[1..] + [x] + [y] == [q[1], x, y]
  {
  }

  lemma FlatStepFromCreated(env: Env, c: Config)
    requires Inv(c) && c.signals != [] && c.state == Created
    ensures Inv(FlatStep(env, c))
  {
    if c.signals[0] == Load { LoadFromCreated(env, c); } else { OtherFromCreated(env, c); }
  }

  lemma LoadFromCreated(env: Env, c: Config)
    requires Inv(c) && c.signals != [] && c.state == Created && c.signals[0] == Load
    ensures Inv(FlatStep(env, c))
  {
    if c.validated { ValidLoadFromCreated(env, c); } else { InvalidLoadFromCreated(env, c); }
  }

  lemma ValidLoadFromCreated(env: Env, c: Config)
    requires Inv(c) && c.signals != [] && c.state == Created && c.signals[0] == Load && c.validated
    ensures Inv(FlatStep(env, c))
  {
  }

  lemma InvalidLoadFromCreated(env: Env, c: Config)
    requires Inv(c) && c.signals != [] && c.state == Created && c.signals[0] == Load && !c.validated
    ensures Inv(FlatStep(env, c))
  {
  }

  lemma OtherFromCreated(env: Env, c: Config)
    requires Inv(c) && c.signals != [] && c.state == Created && c.signals[0] != Load
    ensures Inv(FlatStep(env, c))
  {
  }

  lemma FlatStepFromLoading(env: Env, c: Config)
    requires Inv(c) && c.signals != [] && c.state == Loading
    ensures Inv(FlatStep(env, c))
  {
    if c.signals[0] == Activate { RepostFromLoading(env, c); } else { OtherFromLoading(env, c); }
  }

  lemma RepostFromLoading(env: Env, c: Config)
    requires Inv(c) && c.signals != [] && c.state == Loading && c.signals[0] == Activate
    ensures Inv(FlatStep(env, c))
  {
  }

  lemma OtherFromLoading(env: Env, c: Config)
    requires Inv(c) && c.signals != [] && c.state == Loading && c.signals[0] != Activate
    ensures Inv(FlatStep(env, c))
  {
  }

  lemma FlatStepFromUnloading(env: Env, c: Config)
    requires Inv(c) && c.signals != [] && c.state == Unloading
    ensures Inv(FlatStep(env, c))
  {
  }

  lemma FlatStepFromLoaded(env: Env, c: Config)
    requires Inv(c) && c.signals != [] && (c.state == Loaded || c.state == Activating)
    ensures Inv(FlatStep(env, c))
  {
  }

  lemma FlatStepFromActive(env: Env, c: Config)
    requires Inv(c) && c.signals != [] && c.state in {ActivateFailed, AcReady, AcDeactivating}
    ensures Inv(FlatStep(env, c))
  {
    if c.state == ActivateFailed { FlatStepFromActivateFailed(env, c); } else { FlatStepFromActivated(env, c); }
  }

  lemma FlatStepFromActivateFailed(env: Env, c: Config)
    requires Inv(c) && c.signals != [] && c.state == ActivateFailed
    ensures Inv(FlatStep(env, c))
  {
  }

  lemma FlatStepFromActivated(env: Env, c: Config)
    requires Inv(c) && c.signals != [] && (c.state == AcReady || c.state == AcDeactivating)
    ensures Inv(FlatStep(env, c))
  {
  }

  lemma FlatStepFromError(env: Env, c: Config)
    requires Inv(c) && c.signals != [] && c.state == DeviceError
    ensures Inv(FlatStep(env, c))
  {
  }

  lemma FlatStepFromLoadFailed(env: Env, c: Config)
    requires Inv(c) && c.signals != [] && c.state == LoadFailed
    ensures Inv(FlatStep(env, c))
  {
    if c.signals[0] == Load { LoadFromLoadFailed(env, c); } else { OtherFromLoadFailed(env, c); }
  }

  lemma LoadFromLoadFailed(env: Env, c: Config)
    requires Inv(c) && c.signals != [] && c.state == LoadFailed && c.signals[0] == Load
    ensures Inv(FlatStep(env, c))
  {
  }

  lemma OtherFromLoadFailed(env: Env, c: Config)
    requires Inv(c) && c.signals != [] && c.state == LoadFailed && c.signals[0] != Load
    ensures Inv(FlatStep(env, c))
  {
  }

  /** When the queue is empty the machine rests. */
  lemma DrainedMeansRest(c: Config)
    requires Inv(c) && c.signals == []
    ensures Rest(c)
  {
  }

  function FlatStep(env: Env, c: Config): Config
    requires c.signals != []
  {
    FlatDispatch(env, c.signals[0], c.(signals := c.signals[1..]))
  }

  /** One step by the flat table, for a configuration with its first signal split off. */
  lemma StepIs(env: Env, c: Config)
    requires Inv(c) && c.signals != []
    ensures Step(env, c) == FlatStep(env, c)
  {
    InvLeaf(c);
    DispatchIsFlat(env, c.signals[0], c.(signals := c.signals[1..]));
  }

  /** At most one ACTIVATE is queued, and none is dispatched while activating, ready or deactivating. */
  lemma ActivateDiscipline(c: Config)
    requires Inv(c)
    ensures multiset(c.signals)[Activate] <= 1
    ensures c.signals != [] && c.signals[0] == Activate ==>
              c.state !in {Activating, AcReady, AcDeactivating, Unloading}
  {
    hide Resources;
    var q := c.signals;
    assert |q| <= 3;
    assert |q| == 1 ==> q == [q[0]];
    assert |q| == 2 ==> q == [q[0], q[1]];
    assert |q| == 3 ==> q == [q[0], q[1], q[2]];
  }

  /** A completion at the queue front answers the current state's own entry action, or is ignored in device_error. */
  lemma CompletionBelongsToState(env: Env, c: Config)
    requires Inv(c) && c.signals != [] && Completion(c.signals[0])
    ensures match c.signals[0]
            case LoadComplete | LoadFail => c.state == Loading || c.state == DeviceError
            case UnloadComplete => c.state == Unloading
            case ActivateComplete | ActivateFail => c.state == Activating
            case DeactivateComplete => c.state == AcDeactivating
            case _ => false
    ensures c.state == DeviceError ==> Step(env, c) == c.(signals := c.signals[1..])
    ensures c.state != DeviceError ==> Step(env, c).state != c.state
  {
    StepIs(env, c);
  }

  // ------------------------------------------------------------------------------------------------
  // Does the load action ever succeed?
  // ------------------------------------------------------------------------------------------------

  /** The k-th fetch is the first to deliver an image. */
  ghost predicate FirstFetched(env: Env, from: nat, k: nat) {
    from <= k && env.fetch(k).Some? && forall j :: from <= j < k ==> env.fetch(j).None?
  }

  ghost function FirstFetch(env: Env, from: nat): (k: nat)
    requires exists k :: FirstFetched(env, from, k)
    ensures FirstFetched(env, from, k)
  {
    var k :| FirstFetched(env, from, k);
    k
  }

  /** Repeating the load action succeeds at some point. */
  ghost predicate LoadsEventually(env: Env, c: Config) {
    match c.deviceImage
    case Some(image) => image.nnImage.Some?
    case None => exists k :: FirstFetched(env, c.fetches, k) && env.fetch(k).value.nnImage.Some?
  }

  /** The number of load actions that fail before one succeeds. */
  ghost function FailuresBeforeLoad(env: Env, c: Config): (n: nat)
    requires LoadsEventually(env, c)
  {
    match c.deviceImage
    case Some(_) => 0
    case None => FirstFetch(env, c.fetches) - c.fetches
  }

  lemma LoadActionFacts(env: Env, c: Config)
    ensures var (c1, ok) := LoadAction(env, c);
            && (ok ==> LoadsEventually(env, c) && LoadsEventually(env, c1) && FailuresBeforeLoad(env, c) == 0)
            && (!ok ==> (LoadsEventually(env, c) <==> LoadsEventually(env, c1)))
            && (!ok && LoadsEventually(env, c) ==>
                  FailuresBeforeLoad(env, c1) == FailuresBeforeLoad(env, c) - 1)
  {
    var (c1, ok) := LoadAction(env, c);
    if c.deviceImage.None? {
      if ok {
        assert FirstFetched(env, c.fetches, c.fetches);
      } else {
        if LoadsEventually(env, c) {
          var k :| FirstFetched(env, c.fetches, k) && env.fetch(k).value.nnImage.Some?;
          assert FirstFetched(env, c1.fetches, k);
        }
        if LoadsEventually(env, c1) && c1.deviceImage.None? {
          var k :| FirstFetched(env, c1.fetches, k) && env.fetch(k).value.nnImage.Some?;
          assert FirstFetched(env, c.fetches, k);
        }
      }
    }
  }

  // ------------------------------------------------------------------------------------------------
  // Termination of the drain
  // ------------------------------------------------------------------------------------------------

  /** An ACTIVATE on its way through the load action: it keeps reposting itself until the load succeeds. */
  predicate ActivateRetries(c: Config) {
    && c.validated
    && Queued(c.signals, Activate)
    && match c.state
       case Created => true
       case LoadFailed => Is2(c.signals, Load, Activate)
       case Loading => Queued(c.signals, LoadFail)
       case _ => false
  }

  /** The drain goes on forever exactly in these configurations. */
  ghost predicate Diverges(env: Env, c: Config) {
    ActivateRetries(c) && !LoadsEventually(env, c)
  }

  function Weight(c: Config): nat {
    match c.state
    case Created =>
      if c.validated then (if c.signals == [] then 0 else if |c.signals| == 1 then 12 else 11)
      else if Queued(c.signals, InitError) then 26 + |c.signals|
      else if Is1(c.signals, DeviceDown) then 4
      else if |c.signals| == 2 then 25
      else 10
    case Loading =>
      if !c.validated then 9
      else if Is2(c.signals, Activate, LoadFail) then 11
      else if Queued(c.signals, LoadFail) then 10
      else if Queued(c.signals, Activate) && c.signals[0] == Activate then 8
      else 7
    case LoadFailed => if |c.signals| == 1 then 11 else if c.signals == [] then 0 else 9
    case Loaded => if c.signals == [] then 0 else 4 + |c.signals|
    case Activating => 4
    case AcDeactivating => 3
    case Unloading => 3
    case DeviceError => |c.signals|
    case _ => if c.signals == [] then 0 else 5
  }

  /** The load failures still to come while an ACTIVATE retries. */
  ghost function FailuresLeft(env: Env, c: Config): nat
    requires !Diverges(env, c)
  {
    if ActivateRetries(c) then FailuresBeforeLoad(env, c) else 0
  }

  /** The measure of the drain: the load failures to come first, then the work left in this attempt. */
  lemma DrainMakesProgress(env: Env, c: Config)
    requires Inv(c) && c.signals != [] && !Diverges(env, c)
    ensures !Diverges(env, Step(env, c))
    ensures FailuresLeft(env, Step(env, c)) < FailuresLeft(env, c)
         || (FailuresLeft(env, Step(env, c)) == FailuresLeft(env, c) && Weight(Step(env, c)) < Weight(c))
  {
    hide Weight, QueueShape, Resources, Step, FlatStep, LoadsEventually, FailuresBeforeLoad, LoadAction;
    StepIs(env, c);
    var c' := FlatStep(env, c);
    if ActivateRetries(c) {
      StepOfRetry(env, c);
      SameFetches(env, c, c');
      SameFetches(env, LoadAction(env, c).0, c');
      LoadActionFacts(env, c);
    } else {
      StepWithoutRetry(env, c);
    }
  }

  /** A diverging drain stays diverging, so its queue never empties. */
  lemma DivergencePersists(env: Env, c: Config)
    requires Inv(c) && Diverges(env, c)
    ensures c.signals != [] && Diverges(env, Step(env, c))
  {
    hide Weight, QueueShape, Resources, Step, FlatStep, LoadsEventually, FailuresBeforeLoad, LoadAction;
    StepIs(env, c);
    var c' := FlatStep(env, c);
    StepOfRetry(env, c);
    SameFetches(env, c, c');
    SameFetches(env, LoadAction(env, c).0, c');
    LoadActionFacts(env, c);
  }

  predicate SameImage(c: Config, d: Config) {
    c.deviceImage == d.deviceImage && c.fetches == d.fetches
  }

  /** Whether and when the load succeeds depends on the image and on the fetches made so far only. */
  lemma SameFetches(env: Env, c: Config, d: Config)
    ensures SameImage(c, d) ==> (LoadsEventually(env, c) <==> LoadsEventually(env, d))
    ensures SameImage(c, d) && LoadsEventually(env, c) ==> FailuresBeforeLoad(env, c) == FailuresBeforeLoad(env, d)
  {
  }

  /** A step of a retrying ACTIVATE is bookkeeping or one load action. */
  lemma StepOfRetry(env: Env, c: Config)
    requires Inv(c) && ActivateRetries(c)
    ensures c.signals != []
    ensures var c' := FlatStep(env, c);
            var (c1, ok) := LoadAction(env, c);
            || (SameImage(c', c) && ActivateRetries(c') && Weight(c') < Weight(c))
            || (SameImage(c', c1) && ok && !ActivateRetries(c') && Weight(c') < Weight(c))
            || (SameImage(c', c1) && !ok && ActivateRetries(c'))
  {
    match c.state
    case Created => if Is1(c.signals, Activate) { RetryFromCreated(env, c); } else { RetryLoads(env, c); }
    case LoadFailed => RetryLoads(env, c);
    case _ => RetryFromLoading(env, c);
  }

  lemma RetryFromCreated(env: Env, c: Config)
    requires Inv(c) && c.state == Created && c.validated && Is1(c.signals, Activate)
    ensures var c' := FlatStep(env, c); SameImage(c', c) && ActivateRetries(c') && Weight(c') < Weight(c)
  {
  }

  lemma RetryFromLoading(env: Env, c: Config)
    requires Inv(c) && c.state == Loading && ActivateRetries(c)
    ensures var c' := FlatStep(env, c); SameImage(c', c) && ActivateRetries(c') && Weight(c') < Weight(c)
  {
  }

  lemma RetryLoads(env: Env, c: Config)
    requires c.validated && (c.state == Created || c.state == LoadFailed) && Is2(c.signals, Load, Activate)
    ensures var c' := FlatStep(env, c);
            var (c1, ok) := LoadAction(env, c);
            && c' == Push(c1.(state := Loading, signals := c.signals[1..]), if ok then LoadComplete else LoadFail)
            && (if ok then !ActivateRetries(c') && Weight(c') < Weight(c) else ActivateRetries(c'))
  {
  }

  /** Any other step leaves less work and does not start retrying. */
  lemma StepWithoutRetry(env: Env, c: Config)
    requires Inv(c) && c.signals != [] && !ActivateRetries(c)
    ensures !ActivateRetries(FlatStep(env, c)) && Weight(FlatStep(env, c)) < Weight(c)
  {
    match c.state
    case Created => StepWithoutRetryFromCreated(env, c);
    case Loading | Unloading => StepWithoutRetryFromLoading(env, c);
    case DeviceError | LoadFailed => StepWithoutRetryFromError(env, c);
    case _ => StepWithoutRetryFromLoaded(env, c);
  }

  lemma StepWithoutRetryFromCreated(env: Env, c: Config)
    requires Inv(c) && c.signals != [] && !ActivateRetries(c) && c.state == Created
    ensures !ActivateRetries(FlatStep(env, c)) && Weight(FlatStep(env, c)) < Weight(c)
  {
  }

  lemma StepWithoutRetryFromLoading(env: Env, c: Config)
    requires Inv(c) && c.signals != [] && !ActivateRetries(c) && c.state in {Loading, Unloading}
    ensures !ActivateRetries(FlatStep(env, c)) && Weight(FlatStep(env, c)) < Weight(c)
  {
  }

  lemma StepWithoutRetryFromError(env: Env, c: Config)
    requires Inv(c) && c.signals != [] && !ActivateRetries(c) && c.state in {DeviceError, LoadFailed}
    ensures !ActivateRetries(FlatStep(env, c)) && Weight(FlatStep(env, c)) < Weight(c)
  {
  }

  lemma StepWithoutRetryFromLoaded(env: Env, c: Config)
    requires Inv(c) && c.signals != [] && UnderLoaded(c.state)
    ensures !ActivateRetries(FlatStep(env, c)) && Weight(FlatStep(env, c)) < Weight(c)
  {
  }

  /** At most `n` turns of the drain loop. */
  function Steps(env: Env, c: Config, n: nat): Config
    decreases n
  {
    if n == 0 || c.signals == [] then c else Steps(env, Step(env, c), n - 1)
  }

  ghost predicate Drains(env: Env, c: Config) {
    exists n :: Steps(env, c, n).signals == []
  }

  /** The drain loop ends if and only if it is not an ACTIVATE whose load never succeeds. */
  lemma DrainTerminatesIff(env: Env, c: Config)
    requires Inv(c)
    ensures Drains(env, c) <==> !Diverges(env, c)
  {
    if Diverges(env, c) {
      forall n ensures Steps(env, c, n).signals != [] { NeverDrains(env, c, n); }
    } else {
      var n := DrainLength(env, c);
    }
  }

  lemma {:induction false} NeverDrains(env: Env, c: Config, n: nat)
    requires Inv(c) && Diverges(env, c)
    ensures Steps(env, c, n).signals != []
    decreases n
  {
    DivergencePersists(env, c);
    if n != 0 {
      StepKeepsInv(env, c);
      NeverDrains(env, Step(env, c), n - 1);
    }
  }

  lemma {:induction false} DrainLength(env: Env, c: Config) returns (n: nat)
    requires Inv(c) && !Diverges(env, c)
    ensures Steps(env, c, n).signals == []
    decreases FailuresLeft(env, c), Weight(c)
  {
    hide Weight, QueueShape, Resources, Step, FailuresLeft, Diverges;
    if c.signals == [] {
      n := 0;
    } else {
      DrainMakesProgress(env, c);
      StepKeepsInv(env, c);
      var m := DrainLength(env, Step(env, c));
      n := m + 1;
    }
  }

  /** What the drain ends in. */
  ghost function Settled(env: Env, c: Config): (r: Config)
    requires Inv(c) && !Diverges(env, c)
    ensures Rest(r) && r.signals == []
    ensures r.execObjs == c.execObjs
    decreases FailuresLeft(env, c), Weight(c)
  {
    hide Weight, QueueShape, Resources, Step, FailuresLeft, Diverges;
    if c.signals == [] then
      DrainedMeansRest(c);
      c
    else
      DrainMakesProgress(env, c);
      StepKeepsInv(env, c);
      StepKeepsExecObjs(env, c);
      Settled(env, Step(env, c))
  }

  lemma StepKeepsExecObjs(env: Env, c: Config)
    requires Inv(c) && c.signals != []
    ensures Step(env, c).execObjs == c.execObjs
  {
    hide QueueShape, Resources, Step;
    StepIs(env, c);
    FlatDispatchKeepsExecObjs(env, c.signals[0], c.(signals := c.signals[1..]));
  }

  lemma FlatDispatchKeepsExecObjs(env: Env, sig: Signal, c: Config)
    ensures FlatDispatch(env, sig, c).execObjs == c.execObjs
  {
    hide Enter;
    forall s, d ensures Enter(env, s, d).execObjs == d.execObjs { EnterKeepsExecObjs(env, s, d); }
  }

  lemma EnterKeepsExecObjs(env: Env, s: State, c: Config)
    ensures Enter(env, s, c).execObjs == c.execObjs
  {
  }
}
