/**
 The program's life cycle as its callers see it: what one posted signal does to a program at rest, what each
 public call does, and what holds over whole runs of calls and device events.
 */
module ProgramLifecycle {
  import opened ProgramHsm
  import opened ProgramDrain

  function At(c: Config, s: State, q: seq<Signal>): Config {
    c.(state := s, signals := q)
  }

  // ------------------------------------------------------------------------------------------------
  // One posted signal
  // ------------------------------------------------------------------------------------------------

  /** The program after a failure of its device: a held network is torn down if the device still can. */
  function Failed(env: Env, c: Config): Config {
    At(DeactivateAction(env, c).0, DeviceError, []).(validated := false)
  }

  function Activated(env: Env, c: Config): Config {
    var (c1, ok) := ActivateAction(env, c);
    At(c1, if ok then AcReady else ActivateFailed, [])
  }

  function LoadedOnce(env: Env, c: Config): Config {
    var (c1, ok) := LoadAction(env, c);
    At(c1, if ok then Loaded else LoadFailed, [])
  }

  /** The program after as many load actions as it takes to succeed. */
  ghost function LoadedAtLast(env: Env, c: Config): Config
    requires LoadsEventually(env, c)
    decreases FailuresBeforeLoad(env, c)
  {
    LoadActionFacts(env, c);
    var c1 := LoadedOnce(env, c);
    SameFetches(env, LoadAction(env, c).0, c1);
    if c1.state == Loaded then c1 else LoadedAtLast(env, c1)
  }

  /** The effect of one signal on a program at rest, with no queue and no transient state. */
  ghost function Post(env: Env, c: Config, sig: Signal): Config
    requires Rest(c) && !Diverges(env, Push(c, sig))
  {
    if InitErrorPending(c) then
      Failed(env, if sig == Load then LoadAction(env, c).0 else c)
    else
      match (c.state, sig)
      case (Created, Load) => LoadedOnce(env, c)
      case (LoadFailed, Load) => LoadedOnce(env, c)
      case (Created, Activate) => Activated(env, LoadedAtLast(env, c))
      case (Loaded, Activate) => Activated(env, c)
      case (ActivateFailed, Activate) => Activated(env, c)
      case (Loaded, Unload) => At(UnloadAction(c), Created, [])
      case (AcReady, Deactivate) =>
        var (c1, ok) := DeactivateAction(env, c);
        if ok then At(c1, Loaded, []) else Failed(env, c1)
      case (DeviceError, DeviceUp) =>
        var (c1, ok) := ValidateAction(env, c);
        if ok then At(c1, Created, []) else c1
      case (s, DeviceDown) => if UnderCreated(s) then Failed(env, c) else c
      case _ => c
  }

  /** One turn of the loop does not change what the drain ends in. */
  lemma SettledAfterStep(env: Env, c: Config, c': Config)
    requires Inv(c) && !Diverges(env, c) && c.signals != []
    requires c' == FlatStep(env, c)
    ensures Inv(c') && !Diverges(env, c') && Settled(env, c) == Settled(env, c')
  {
    hide Weight, QueueShape, Resources, Step, FlatStep, FailuresLeft, Diverges;
    DrainMakesProgress(env, c);
    StepKeepsInv(env, c);
    StepIs(env, c);
  }

  /** Draining one posted signal has exactly the effect `Post` describes. */
  lemma SettledIsPost(env: Env, c: Config, sig: Signal)
    requires Rest(c) && Postable(c, sig) && !Diverges(env, Push(c, sig))
    ensures Inv(Push(c, sig)) && Settled(env, Push(c, sig)) == Post(env, c, sig)
  {
    PostEstablishesInv(c, sig);
    if InitErrorPending(c) {
      SettledWithInitError(env, c, sig);
    } else {
      match c.state
      case Created => SettledFromCreated(env, c, sig);
      case LoadFailed | DeviceError => SettledFromError(env, c, sig);
      case _ => SettledFromLoaded(env, c, sig);
    }
  }

  lemma FlatLoad(env: Env, c: Config)
    requires c.signals != [] && c.signals[0] == Load
    requires c.state == Created || (c.state == LoadFailed && c.validated)
    ensures var (c1, ok) := LoadAction(env, c);
            FlatStep(env, c) == At(c1, Loading, c.signals[1..] + [if ok then LoadComplete else LoadFail])
  {
  }

  lemma FlatLoadDone(env: Env, c: Config)
    requires c.signals != [] && c.state == Loading
    ensures c.signals[0] == LoadComplete ==> FlatStep(env, c) == At(c, Loaded, c.signals[1..])
    ensures c.signals[0] == LoadFail ==> FlatStep(env, c) == At(c, LoadFailed, c.signals[1..])
  {
  }

  lemma FlatRepost(env: Env, c: Config)
    requires c.signals != [] && UnderCreated(c.state) && c.state != Loaded && c.state != ActivateFailed
    ensures c.signals[0] == Activate ==> FlatStep(env, c) == c.(signals := c.signals[1..] + [Load] + [Activate])
    ensures c.signals[0] == InitError ==> FlatStep(env, c) == c.(signals := c.signals[1..] + [DeviceDown])
  {
  }

  lemma FlatDown(env: Env, c: Config)
    requires c.signals != [] && UnderCreated(c.state) && c.signals[0] == DeviceDown
    ensures FlatStep(env, c) == Failed(env, c).(signals := c.signals[1..])
  {
  }

  lemma FailedNext(env: Env, c: Config, sig: Signal)
    requires c.signals == [] && UnderCreated(c.state) && sig == DeviceDown
    ensures FlatStep(env, Push(c, sig)) == Failed(env, c) && Failed(env, c).signals == []
  {
    FlatDown(env, Push(c, sig));
  }

  lemma FlatUp(env: Env, c: Config)
    requires c.signals != [] && c.signals[0] == DeviceUp && c.state == DeviceError
    ensures FlatStep(env, c) ==
            var (c1, ok) := ValidateAction(env, c);
            At(c1, if ok then Created else DeviceError, c.signals[1..])
  {
  }

  lemma FlatLoadedIgnoresLoad(env: Env, c: Config)
    requires c.signals != [] && UnderLoaded(c.state) && c.signals[0] == Load
    ensures FlatStep(env, c) == c.(signals := c.signals[1..])
  {
  }

  lemma FlatActivate(env: Env, c: Config)
    requires c.signals != [] && c.signals[0] == Activate && (c.state == Loaded || c.state == ActivateFailed)
    ensures var (c1, ok) := ActivateAction(env, c);
            FlatStep(env, c) == At(c1, Activating, c.signals[1..] + [if ok then ActivateComplete else ActivateFail])
  {
  }

  lemma FlatActivateDone(env: Env, c: Config)
    requires c.signals != [] && c.state == Activating
    ensures c.signals[0] == ActivateComplete ==> FlatStep(env, c) == At(c, AcReady, c.signals[1..])
    ensures c.signals[0] == ActivateFail ==> FlatStep(env, c) == At(c, ActivateFailed, c.signals[1..])
  {
  }

  lemma FlatDeactivate(env: Env, c: Config)
    requires c.signals != [] && c.signals[0] == Deactivate && c.state == AcReady
    ensures var (c1, ok) := DeactivateAction(env, c);
            FlatStep(env, c) == At(c1, AcDeactivating, c.signals[1..] + [if ok then DeactivateComplete else DeviceDown])
  {
  }

  lemma FlatDeactivateDone(env: Env, c: Config)
    requires c.signals != [] && c.signals[0] == DeactivateComplete && c.state == AcDeactivating
    ensures FlatStep(env, c) == At(c, Loaded, c.signals[1..])
  {
  }

  lemma FlatUnload(env: Env, c: Config)
    requires c.signals != []
    ensures c.state == Loaded && c.signals[0] == Unload ==>
              FlatStep(env, c) == At(UnloadAction(c), Unloading, c.signals[1..] + [UnloadComplete])
    ensures c.state == Unloading && c.signals[0] == UnloadComplete ==>
              FlatStep(env, c) == At(c, Created, c.signals[1..])
  {
  }

  /** Signals that no handler of the current state acts on. */
  predicate Ignored(s: State, sig: Signal) {
    match s
    case Created => sig != InitError && sig != Load && sig != Activate && sig != DeviceDown
    case Loaded => sig != InitError && sig != Unload && sig != Activate && sig != DeviceDown
    case ActivateFailed => sig != InitError && sig != Activate && sig != DeviceDown
    case AcReady => sig != InitError && sig != Activate && sig != Deactivate && sig != DeviceDown
    case LoadFailed => sig != Load
    case DeviceError => sig != DeviceUp
    case _ => false
  }

  lemma FlatIgnore(env: Env, c: Config)
    requires c.signals != [] && Ignored(c.state, c.signals[0])
    ensures FlatStep(env, c) == c.(signals := c.signals[1..])
  {
  }

  /** INIT_ERROR becomes a device failure that the posted signal overtakes. */
  lemma SettledWithInitError(env: Env, c: Config, sig: Signal)
    requires Resources(c) && InitErrorPending(c) && External(sig)
    requires Inv(Push(c, sig)) && !Diverges(env, Push(c, sig))
    ensures Settled(env, Push(c, sig)) == Failed(env, if sig == Load then LoadAction(env, c).0 else c)
  {
    hide Weight, QueueShape, Resources, Diverges, ActivateRetries, FailuresLeft, Rest, Postable, FlatStep;
    hide External, Failed, LoadAction;
    var c1 := At(c, Created, [sig, DeviceDown]);
    FailedFrame(env, c, Created, [sig, DeviceDown]);
    Popped(Push(c, sig).signals);
    FlatRepost(env, Push(c, sig));
    SettledAfterStep(env, Push(c, sig), c1);
    if sig == Load { SettledOvertakenByLoad(env, c1); } else { SettledOvertaken(env, c1); }
  }

  lemma SettledOvertakenByLoad(env: Env, c: Config)
    requires Inv(c) && !Diverges(env, c) && c.state == Created && Is2(c.signals, Load, DeviceDown)
    ensures Settled(env, c) == Failed(env, LoadAction(env, c).0)
  {
    hide Weight, QueueShape, Resources, Diverges, ActivateRetries, FailuresLeft, Rest, Postable, FlatStep,
      LoadAction, Failed, External;
    var (c1, ok) := LoadAction(env, c);
    var done := if ok then LoadComplete else LoadFail;
    var c2 := At(c1, Loading, [DeviceDown, done]);
    Popped(c.signals);
    assert c2.signals[1..] == [done];
    FailedFrame(env, c1, Loading, c2.signals);
    FlatLoad(env, c);
    SettledAfterStep(env, c, c2);
    SettledFailure(env, c2);
  }

  lemma SettledOvertaken(env: Env, c: Config)
    requires Inv(c) && !Diverges(env, c) && c.state == Created
    requires |c.signals| == 2 && External(c.signals[0]) && c.signals[0] != Load && c.signals[1] == DeviceDown
    ensures Settled(env, c) == Failed(env, c)
  {
    hide Weight, QueueShape, Resources, Diverges, ActivateRetries, FailuresLeft, Rest, Postable, FlatStep, Failed;
    Popped(c.signals);
    FailedFrame(env, c, Created, [DeviceDown, Load, Activate]);
    FailedFrame(env, c, Created, [DeviceDown]);
    if c.signals[0] == DeviceDown {
      SettledFailure(env, c);
    } else if c.signals[0] == Activate {
      FlatRepost(env, c);
      SettledAfterStep(env, c, At(c, Created, [DeviceDown, Load, Activate]));
      SettledFailure(env, At(c, Created, [DeviceDown, Load, Activate]));
    } else {
      FlatIgnore(env, c);
      SettledAfterStep(env, c, At(c, Created, [DeviceDown]));
      SettledFailure(env, At(c, Created, [DeviceDown]));
    }
  }

  lemma FailedFrame(env: Env, c: Config, s: State, q: seq<Signal>)
    ensures Failed(env, At(c, s, q)) == Failed(env, c)
    ensures Failed(env, LoadAction(env, At(c, s, q)).0) == Failed(env, LoadAction(env, c).0)
  {
    FailedAt(env, c, s, q);
    hide Failed;
    LoadAt(env, c, s, q);
    FailedAt(env, LoadAction(env, c).0, s, q);
  }

  lemma FailedAt(env: Env, c: Config, s: State, q: seq<Signal>)
    ensures Failed(env, At(c, s, q)) == Failed(env, c)
  {
  }

  lemma LoadAt(env: Env, c: Config, s: State, q: seq<Signal>)
    ensures LoadAction(env, At(c, s, q)).0 == At(LoadAction(env, c).0, s, q)
  {
  }

  /** After the device failure the rest of the queue is dropped. */
  lemma SettledFailure(env: Env, c: Config)
    requires Inv(c) && !Diverges(env, c)
    requires UnderCreated(c.state) && 1 <= |c.signals| <= 3 && c.signals[0] == DeviceDown
    requires DeviceUp !in c.signals[1..]
    ensures Settled(env, c) == Failed(env, c)
  {
    hide Weight, QueueShape, Resources, Diverges, ActivateRetries, FailuresLeft, Rest, Postable, FlatStep;
    FlatDown(env, c);
    SettledAfterStep(env, c, Failed(env, c).(signals := c.signals[1..]));
    SettledInDeviceError(env, Failed(env, c).(signals := c.signals[1..]));
  }

  lemma {:induction false} SettledInDeviceError(env: Env, c: Config)
    requires Inv(c) && !Diverges(env, c) && c.state == DeviceError && DeviceUp !in c.signals
    ensures Settled(env, c) == c.(signals := [])
    decreases |c.signals|
  {
    hide Weight, QueueShape, Resources, Diverges, ActivateRetries, FailuresLeft, Rest, Postable, FlatStep;
    if c.signals != [] {
      var c1 := c.(signals := c.signals[1..]);
      assert c.signals[0] in c.signals;
      FlatIgnore(env, c);
      SettledAfterStep(env, c, c1);
      SettledInDeviceError(env, c1);
    }
  }

  lemma SettledFromCreated(env: Env, c: Config, sig: Signal)
    requires Rest(c) && c.state == Created && c.signals == [] && External(sig)
    requires Inv(Push(c, sig)) && !Diverges(env, Push(c, sig))
    ensures Settled(env, Push(c, sig)) == Post(env, c, sig)
  {
    hide Weight, QueueShape, Diverges, ActivateRetries, FailuresLeft, FlatStep, Failed, LoadAction, LoadedOnce,
      Activated, LoadedAtLast;
    if sig == Load {
      SettledLoad(env, c);
    } else if sig == Activate {
      SettledActivateFromCreated(env, c);
    } else {
      SettledRest(env, c, sig);
    }
  }

  /** Nothing acts on the signal, or it reports a failure of the device. */
  predicate AtOnce(s: State, sig: Signal) { Ignored(s, sig) || (sig == DeviceDown && UnderCreated(s)) }

  /** A signal that nothing acts on is dropped, and a device failure is handled at once. */
  lemma SettledAtOnce(env: Env, c: Config, sig: Signal)
    requires c.signals == [] && AtOnce(c.state, sig)
    requires Inv(Push(c, sig)) && !Diverges(env, Push(c, sig))
    ensures Settled(env, Push(c, sig)) == if sig == DeviceDown && UnderCreated(c.state) then Failed(env, c) else c
  {
    hide Weight, QueueShape, Resources, Diverges, ActivateRetries, FailuresLeft, FlatStep, Failed, Ignored;
    Popped(Push(c, sig).signals);
    if sig == DeviceDown && UnderCreated(c.state) {
      FailedNext(env, c, sig);
      SettledAfterStep(env, Push(c, sig), Failed(env, c));
    } else {
      FlatIgnore(env, Push(c, sig));
      SettledAfterStep(env, Push(c, sig), c);
    }
  }

  lemma PostAtOnce(env: Env, c: Config, sig: Signal)
    requires Rest(c) && c.signals == [] && AtOnce(c.state, sig) && External(sig) && !Diverges(env, Push(c, sig))
    ensures Post(env, c, sig) == if sig == DeviceDown && UnderCreated(c.state) then Failed(env, c) else c
  {
    hide Resources, Diverges, Failed, Activated, LoadedOnce, LoadAction, DeactivateAction;
  }

  lemma SettledRest(env: Env, c: Config, sig: Signal)
    requires Rest(c) && c.signals == [] && AtOnce(c.state, sig) && External(sig)
    requires Inv(Push(c, sig)) && !Diverges(env, Push(c, sig))
    ensures Settled(env, Push(c, sig)) == Post(env, c, sig)
  {
    hide *;
    SettledAtOnce(env, c, sig);
    PostAtOnce(env, c, sig);
  }

  /** ACTIVATE in created becomes a LOAD and the same ACTIVATE again. */
  lemma SettledActivateFromCreated(env: Env, c: Config)
    requires c.state == Created && c.validated && c.signals == []
    requires Inv(Push(c, Activate)) && !Diverges(env, Push(c, Activate))
    ensures LoadsEventually(env, c) && Settled(env, Push(c, Activate)) == Activated(env, LoadedAtLast(env, c))
  {
    hide Weight, QueueShape, Resources, Diverges, ActivateRetries, FailuresLeft, FlatStep, Rest, Postable,
      LoadsEventually, Activated, LoadedAtLast;
    var c1 := At(c, Created, [Load, Activate]);
    Popped(Push(c, Activate).signals);
    FlatRepost(env, Push(c, Activate));
    SettledAfterStep(env, Push(c, Activate), c1);
    SettledRetry(env, c1);
    LoadedAtLastFrame(env, c1, c);
  }

  lemma SettledLoad(env: Env, c: Config)
    requires c.validated && (c.state == Created || c.state == LoadFailed) && c.signals == []
    requires Inv(Push(c, Load)) && !Diverges(env, Push(c, Load))
    ensures Settled(env, Push(c, Load)) == LoadedOnce(env, c)
  {
    hide Weight, QueueShape, Resources, Diverges, ActivateRetries, FailuresLeft, Rest, Postable, FlatStep;
    var (c1, ok) := LoadAction(env, c);
    var c2 := At(c1, Loading, [if ok then LoadComplete else LoadFail]);
    Popped(Push(c, Load).signals);
    Popped(c2.signals);
    FlatLoad(env, Push(c, Load));
    FlatLoadDone(env, c2);
    SettledAfterStep(env, Push(c, Load), c2);
    SettledAfterStep(env, c2, LoadedOnce(env, c));
  }

  lemma SettledFromError(env: Env, c: Config, sig: Signal)
    requires Rest(c) && (c.state == LoadFailed || c.state == DeviceError) && External(sig)
    requires Inv(Push(c, sig)) && !Diverges(env, Push(c, sig))
    ensures Settled(env, Push(c, sig)) == Post(env, c, sig)
  {
    hide Weight, QueueShape, Diverges, ActivateRetries, FailuresLeft, FlatStep, Failed, LoadAction, LoadedOnce;
    if c.state == LoadFailed && sig == Load {
      SettledLoad(env, c);
    } else if c.state == DeviceError && sig == DeviceUp {
      SettledUp(env, c);
    } else {
      SettledRest(env, c, sig);
    }
  }

  lemma SettledUp(env: Env, c: Config)
    requires Rest(c) && c.state == DeviceError
    requires Inv(Push(c, DeviceUp)) && !Diverges(env, Push(c, DeviceUp))
    ensures Settled(env, Push(c, DeviceUp)) == Post(env, c, DeviceUp)
  {
    hide Weight, QueueShape, Diverges, ActivateRetries, FailuresLeft, FlatStep, Resources;
    Popped(Push(c, DeviceUp).signals);
    FlatUp(env, Push(c, DeviceUp));
    SettledAfterStep(env, Push(c, DeviceUp), Post(env, c, DeviceUp));
  }

  lemma SettledFromLoaded(env: Env, c: Config, sig: Signal)
    requires Rest(c) && (c.state == Loaded || c.state == ActivateFailed || c.state == AcReady) && Postable(c, sig)
    requires Inv(Push(c, sig)) && !Diverges(env, Push(c, sig))
    ensures Settled(env, Push(c, sig)) == Post(env, c, sig)
  {
    hide Weight, QueueShape, Resources, Diverges, ActivateRetries, FailuresLeft, FlatStep, Failed, Activated,
      LoadedOnce, LoadAction, DeactivateAction;
    if c.state != AcReady && sig == Activate {
      Popped(Push(c, sig).signals);
      SettledActivating(env, c);
    } else if c.state == Loaded && sig == Unload {
      SettledUnloading(env, c);
    } else if c.state == AcReady && sig == Deactivate {
      Popped(Push(c, sig).signals);
      SettledDeactivating(env, c);
    } else {
      SettledRest(env, c, sig);
    }
  }

  lemma SettledUnloading(env: Env, c: Config)
    requires c.state == Loaded && c.signals == []
    requires Inv(Push(c, Unload)) && !Diverges(env, Push(c, Unload))
    ensures Settled(env, Push(c, Unload)) == At(UnloadAction(c), Created, [])
  {
    hide Weight, QueueShape, Resources, Diverges, ActivateRetries, FailuresLeft, FlatStep;
    var c1 := At(UnloadAction(c), Unloading, [UnloadComplete]);
    Popped(Push(c, Unload).signals);
    Popped(c1.signals);
    FlatUnload(env, Push(c, Unload));
    FlatUnload(env, c1);
    SettledAfterStep(env, Push(c, Unload), c1);
    SettledAfterStep(env, c1, At(UnloadAction(c), Created, []));
  }

  lemma SettledDeactivating(env: Env, c: Config)
    requires c.state == AcReady && c.signals == []
    requires Inv(Push(c, Deactivate)) && !Diverges(env, Push(c, Deactivate))
    ensures Settled(env, Push(c, Deactivate)) ==
            var (c1, ok) := DeactivateAction(env, c);
            if ok then At(c1, Loaded, []) else Failed(env, c1)
  {
    hide Weight, QueueShape, Resources, Diverges, ActivateRetries, FailuresLeft, Rest, Postable, FlatStep;
    Popped(Push(c, Deactivate).signals);
    var (c1, ok) := DeactivateAction(env, c);
    var c2 := At(c1, AcDeactivating, [if ok then DeactivateComplete else DeviceDown]);
    Popped(c2.signals);
    FlatDeactivate(env, Push(c, Deactivate));
    if ok { FlatDeactivateDone(env, c2); } else { FlatDown(env, c2); }
    SettledAfterStep(env, Push(c, Deactivate), c2);
    SettledAfterStep(env, c2, if ok then At(c1, Loaded, []) else Failed(env, c1));
  }

  lemma SettledActivating(env: Env, c: Config)
    requires (c.state == Loaded || c.state == ActivateFailed) && c.signals == []
    requires Inv(Push(c, Activate)) && !Diverges(env, Push(c, Activate))
    ensures Settled(env, Push(c, Activate)) == Activated(env, c)
  {
    hide Weight, QueueShape, Resources, Diverges, ActivateRetries, FailuresLeft, Rest, Postable, FlatStep;
    var (c1, ok) := ActivateAction(env, c);
    var c2 := At(c1, Activating, [if ok then ActivateComplete else ActivateFail]);
    Popped(Push(c, Activate).signals);
    Popped(c2.signals);
    FlatActivate(env, Push(c, Activate));
    FlatActivateDone(env, c2);
    SettledAfterStep(env, Push(c, Activate), c2);
    SettledAfterStep(env, c2, Activated(env, c));
  }

  /** A retrying ACTIVATE loads until it succeeds and then activates once. */
  lemma {:induction false} SettledRetry(env: Env, c: Config)
    requires Inv(c) && !Diverges(env, c)
    requires c.validated && (c.state == Created || c.state == LoadFailed) && Is2(c.signals, Load, Activate)
    ensures LoadsEventually(env, c) && Settled(env, c) == Activated(env, LoadedAtLast(env, c))
    decreases if LoadsEventually(env, c) then FailuresBeforeLoad(env, c) else 0
  {
    hide Weight, QueueShape, Resources, FailuresLeft, Rest, Postable, FailuresBeforeLoad, LoadsEventually, FlatStep;
    assert LoadsEventually(env, c);
    hide Diverges, ActivateRetries, Activated, LoadAction, Inv;
    var (c1, ok) := LoadAction(env, c);
    LoadActionFacts(env, c);
    SettledOneLoad(env, c);
    SameFetches(env, c1, LoadedOnce(env, c));
    if ok {
      var c2 := LoadedOnce(env, c);
      SettledActivating(env, c2);
    } else {
      var c2 := At(c1, LoadFailed, [Load, Activate]);
      SameFetches(env, c1, c2);
      SettledRetry(env, c2);
      LoadedAtLastFrame(env, c2, LoadedOnce(env, c));
    }
  }

  /** One load of a retrying ACTIVATE. */
  lemma SettledOneLoad(env: Env, c: Config)
    requires Inv(c) && !Diverges(env, c)
    requires c.validated && (c.state == Created || c.state == LoadFailed) && Is2(c.signals, Load, Activate)
    ensures var (c1, ok) := LoadAction(env, c);
            var c2 := if ok then Push(LoadedOnce(env, c), Activate) else At(c1, LoadFailed, [Load, Activate]);
            Inv(c2) && !Diverges(env, c2) && Settled(env, c) == Settled(env, c2)
  {
    hide Weight, QueueShape, Resources, Diverges, ActivateRetries, FailuresLeft, Rest, Postable, FlatStep;
    var (c1, ok) := LoadAction(env, c);
    var done := if ok then LoadComplete else LoadFail;
    Popped(c.signals);
    Popped([Activate, done]);
    Popped([done, Load, Activate]);
    Popped([Load, Activate]);
    FlatLoad(env, c);
    FlatRepost(env, At(c1, Loading, [Activate, done]));
    FlatLoadDone(env, At(c1, Loading, [done, Load, Activate]));
    FlatLoadedIgnoresLoad(env, At(c1, Loaded, [Load, Activate]));
    SettledAfterStep(env, c, At(c1, Loading, [Activate, done]));
    SettledAfterStep(env, At(c1, Loading, [Activate, done]), At(c1, Loading, [done, Load, Activate]));
    if ok {
      SettledAfterStep(env, At(c1, Loading, [done, Load, Activate]), At(c1, Loaded, [Load, Activate]));
      SettledAfterStep(env, At(c1, Loaded, [Load, Activate]), At(c1, Loaded, [Activate]));
      assert [] + [Activate] == [Activate];
    } else {
      SettledAfterStep(env, At(c1, Loading, [done, Load, Activate]), At(c1, LoadFailed, [Load, Activate]));
    }
  }

  /** Loading depends on neither the state nor the queue. */
  lemma LoadedAtLastFrame(env: Env, c: Config, d: Config)
    requires At(c, Created, []) == At(d, Created, []) && LoadsEventually(env, c)
    ensures LoadsEventually(env, d) && LoadedAtLast(env, c) == LoadedAtLast(env, d)
  {
    SameFetches(env, c, d);
    LoadedOnceFrame(env, c, d);
  }

  lemma LoadedOnceFrame(env: Env, c: Config, d: Config)
    requires At(c, Created, []) == At(d, Created, [])
    ensures LoadedOnce(env, c) == LoadedOnce(env, d)
  {
    assert LoadAction(env, At(c, Created, [])) == LoadAction(env, At(d, Created, []));
  }

  /** A failed load of an ACTIVATE always comes to load_failed with [LOAD, ACTIVATE], three turns later. */
  lemma FailedLoadComesBack(env: Env, c: Config)
    requires Inv(c) && c.validated && (c.state == Created || c.state == LoadFailed)
    requires Is2(c.signals, Load, Activate)
    requires !LoadAction(env, c).1
    ensures Steps(env, c, 3) == At(LoadAction(env, c).0, LoadFailed, [Load, Activate])
  {
    hide QueueShape, Resources, Step, FlatStep, LoadAction;
    var c1 := LoadAction(env, c).0;
    Popped(c.signals);
    Popped([Activate, LoadFail]);
    Popped([LoadFail, Load, Activate]);
    FlatLoad(env, c);
    FlatRepost(env, At(c1, Loading, [Activate, LoadFail]));
    FlatLoadDone(env, At(c1, Loading, [LoadFail, Load, Activate]));
    NextStep(env, c, At(c1, Loading, [Activate, LoadFail]));
    NextStep(env, At(c1, Loading, [Activate, LoadFail]), At(c1, Loading, [LoadFail, Load, Activate]));
    NextStep(env, At(c1, Loading, [LoadFail, Load, Activate]), At(c1, LoadFailed, [Load, Activate]));
    assert Steps(env, c, 3) == Steps(env, At(c1, Loading, [Activate, LoadFail]), 2);
  }

  lemma NextStep(env: Env, c: Config, c': Config)
    requires Inv(c) && c.signals != [] && c' == FlatStep(env, c)
    ensures Step(env, c) == c' && Inv(c')
  {
    StepIs(env, c);
    StepKeepsInv(env, c);
  }
}
