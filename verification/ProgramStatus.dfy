/**
 What each public call of a program device reports and leaves behind, at rest, field by field and in terms of what the
 device answers.
 */
module ProgramStatus {
  import opened Wrappers
  import opened ProgramHsm
  import opened ProgramDrain
  import opened ProgramLifecycle
  import opened ProgramCalls

  /** The configuration after a device failure: not validated any more, and a held network torn down if possible. */
  function Downed(env: Env, c: Config): Config {
    c.(state := DeviceError, signals := [], validated := false,
       qnn := if c.qnn.Some? && env.teardown(c.teardowns) then None else c.qnn,
       teardowns := if c.qnn.Some? then c.teardowns + 1 else c.teardowns)
  }

  lemma FailedIsDowned(env: Env, c: Config)
    ensures Failed(env, c) == Downed(env, c)
  {
  }

  /** The image that a load looks at: the one that is held, or else the next fetch. */
  function ImageFor(env: Env, c: Config): Option<DeviceImage> {
    if c.deviceImage.Some? then c.deviceImage else env.fetch(c.fetches)
  }

  predicate HasNetworkImage(image: Option<DeviceImage>) { image.Some? && image.value.nnImage.Some? }

  /** The configuration after one load from created or load_failed. */
  function AfterLoad(env: Env, c: Config): Config {
    var image := ImageFor(env, c);
    c.(state := if HasNetworkImage(image) then Loaded else LoadFailed, signals := [], deviceImage := image,
       nnImage := if image.Some? then image.value.nnImage else c.nnImage,
       fetches := if c.deviceImage.Some? then c.fetches else c.fetches + 1)
  }

  lemma LoadedOnceIs(env: Env, c: Config)
    ensures LoadedOnce(env, c) == AfterLoad(env, c)
  {
  }

  lemma PendingLoadIs(env: Env, c: Config)
    requires c.signals != []
    ensures Failed(env, LoadAction(env, c).0) == Downed(env, AfterLoad(env, c))
  {
  }

  /** What `load` does in each resting state. */
  lemma LoadIs(env: Env, c: Config)
    requires Rest(c)
    ensures var (c1, status) := LoadCall(env, c);
            && (UnderLoaded(c.state) ==> c1 == c && status == Success)
            && (InitErrorPending(c) ==> c1 == Downed(env, AfterLoad(env, c)) && status == Error)
            && (c.state == DeviceError ==> c1 == c && status == Error)
            && ((c.state == Created && c.signals == []) || c.state == LoadFailed ==>
                  c1 == AfterLoad(env, c) && (status == Success <==> HasNetworkImage(ImageFor(env, c))))
  {
    hide Resources, Within, ProgramStateOf, Drained, Failed, LoadAction, LoadedOnce;
    ProgramStateIs(c.state);
    if !UnderLoaded(c.state) {
      DrainedIsPost(env, c, Load);
      LoadedOnceIs(env, c);
      if InitErrorPending(c) { PendingLoadIs(env, c); }
      ProgramStateIs(Drained(env, c, Load).state);
    }
  }

  /** `load` succeeds exactly when the program ends up loaded. */
  lemma LoadSucceedsIff(env: Env, c: Config)
    requires Rest(c)
    ensures LoadCall(env, c).1 == Success <==> UnderLoaded(LoadCall(env, c).0.state)
  {
    hide Resources, LoadCall;
    LoadIs(env, c);
  }

  /** The configuration after one activation from a loaded state. */
  function AfterActivation(env: Env, c: Config): Config {
    var outcome := env.activate(c.activations);
    c.(state := if outcome.ok && outcome.nn.Some? then AcReady else ActivateFailed, signals := [], qnn := outcome.nn,
       activations := c.activations + 1)
  }

  lemma ActivatedIs(env: Env, c: Config)
    ensures Activated(env, c) == AfterActivation(env, c)
  {
  }

  /** What `activate` does in each resting state; from created it first loads as often as it takes. */
  lemma ActivateIs(env: Env, c: Config)
    requires Rest(c) && CanActivate(env, c)
    ensures var (c1, status) := ActivateCall(env, c); var outcome := env.activate(c.activations);
            && (status == Success <==> c1.state == AcReady) && (status != Success ==> status == Error)
            && (c.state == AcReady || c.state == LoadFailed || c.state == DeviceError ==> c1 == c)
            && (InitErrorPending(c) ==> c1 == Downed(env, c))
            && (c.state == Loaded || c.state == ActivateFailed ==> c1 == AfterActivation(env, c))
            && (c.state == Created && c.signals == [] ==>
                  c1 == AfterActivation(env, c).(deviceImage := c1.deviceImage, nnImage := c1.nnImage,
                                                 fetches := c1.fetches)
                  && HasNetworkImage(c1.deviceImage) && c1.nnImage == c1.deviceImage.value.nnImage)
  {
    hide Resources, Within, Drained, Failed, Activated, LoadsEventually, LoadedAtLast, FailuresBeforeLoad;
    LeafLiesIn(c.state, AcReady);
    FailedIsDowned(env, c);
    if c.state != AcReady {
      DrainedIsPost(env, c, Activate);
      LeafLiesIn(Drained(env, c, Activate).state, AcReady);
      ActivatedIs(env, c);
      if c.state == Created && c.signals == [] {
        SameFetches(env, c, Push(c, Activate));
        LoadedAtLastIs(env, c);
        ActivatedIs(env, LoadedAtLast(env, c));
      }
    }
  }

  lemma {:induction false} LoadedAtLastIs(env: Env, c: Config)
    requires LoadsEventually(env, c)
    ensures var c1 := LoadedAtLast(env, c);
            && HasNetworkImage(c1.deviceImage) && c1.nnImage == c1.deviceImage.value.nnImage
            && c1 == c.(state := Loaded, signals := [], deviceImage := c1.deviceImage, nnImage := c1.nnImage,
                        fetches := c1.fetches)
    decreases FailuresBeforeLoad(env, c)
  {
    hide LoadsEventually, FailuresBeforeLoad;
    LoadActionFacts(env, c);
    var c1 := LoadedOnce(env, c);
    SameFetches(env, LoadAction(env, c).0, c1);
    if c1.state != Loaded { LoadedAtLastIs(env, c1); }
  }

  /** The configuration after a deactivation of a ready program: a teardown that fails is tried once more. */
  function AfterDeactivation(env: Env, c: Config): Config {
    if env.teardown(c.teardowns) then c.(state := Loaded, signals := [], qnn := None, teardowns := c.teardowns + 1)
    else Downed(env, c.(teardowns := c.teardowns + 1))
  }

  lemma ReadyDrained(env: Env, c: Config)
    requires Rest(c) && c.state == AcReady
    ensures c.qnn.Some? && c.validated && c.signals == []
    ensures Drained(env, c, Deactivate) == AfterDeactivation(env, c)
  {
    DrainedIsPost(env, c, Deactivate);
    hide Drained;
  }

  /** What a deactivation does in each resting state. */
  lemma DeactivateIs(env: Env, c: Config)
    requires Rest(c)
    ensures var (c1, status) := DeactivateCall(env, c);
            && (status == Success <==> c1.state == Created || UnderLoaded(c1.state))
            && (status != Success ==> status == Error)
            && (c.state == AcReady ==> c1 == AfterDeactivation(env, c))
            && (InitErrorPending(c) ==> c1 == Downed(env, c))
            && (c.state != AcReady && !InitErrorPending(c) ==> c1 == c)
  {
    hide Resources, Within, Drained, Failed, ProgramStateOf;
    var c1 := Drained(env, c, Deactivate);
    ProgramStateIs(c1.state);
    FailedIsDowned(env, c);
    if c.state == AcReady { ReadyDrained(env, c); } else { DrainedIsPost(env, c, Deactivate); }
  }

  /** The activation command: a deactivation is refused while an execution object is registered. */
  lemma CommandIs(env: Env, c: Config, cmd: ActivationCmd)
    requires Rest(c) && (cmd == ActivateFull ==> CanActivate(env, c))
    ensures CommandCall(env, c, cmd) ==
            if cmd == ActivateFull then ActivateCall(env, c)
            else if cmd == DeactivateFull && c.execObjs == [] then DeactivateCall(env, c)
            else (c, Inval)
  {
    hide ActivateCall, DeactivateCall;
  }

  /** A constructed device is in created, and INIT_ERROR is pending exactly when its first query failed. */
  lemma InitialIs(env: Env, execObjs: seq<nat>)
    ensures Initial(env, execObjs)
            == Config(Created, if env.query(0) then [] else [InitError], env.query(0), None, None, None, execObjs,
                      1, 0, 0, 0)
  {
    assert [] + [InitError] == [InitError];
  }

  function Unloaded(c: Config): Config {
    c.(state := Created, signals := [], deviceImage := None, nnImage := None)
  }

  /** What `unload` does in each resting state. */
  lemma UnloadIs(env: Env, c: Config)
    requires Rest(c)
    ensures var (c1, status) := UnloadCall(env, c); var down := AfterDeactivation(env, c);
            && (status != Success ==> status == Error)
            && (c.state == AcReady && c.execObjs != [] ==> c1 == c && status == Error)
            && (c.state == AcReady && c.execObjs == [] && env.teardown(c.teardowns) ==>
                  c1 == Unloaded(down) && status == Success)
            && (c.state == AcReady && c.execObjs == [] && !env.teardown(c.teardowns) ==> c1 == down && status == Error)
            && (c.state == Loaded ==> c1 == Unloaded(c) && status == Success)
            && ((c.state == Created && c.signals == []) || c.state == ActivateFailed ==> c1 == c && status == Success)
            && (c.state == LoadFailed || c.state == DeviceError ==> c1 == c && status == Error)
            && (InitErrorPending(c) ==> c1 == Downed(env, c) && status == Error)
  {
    hide Resources, Within, Drained, ProgramStateOf;
    ProgramStateIs(c.state);
    if c.state == AcReady {
      ReadyDrained(env, c);
      UnloadDrained(env, Drained(env, c, Deactivate));
    } else {
      UnloadDrained(env, c);
    }
  }

  lemma UnloadDrained(env: Env, c: Config)
    requires Rest(c) && c.state != AcReady
    ensures var c1 := Drained(env, c, Unload);
            && (c.state == Loaded ==> c1 == Unloaded(c))
            && (InitErrorPending(c) ==> c1 == Downed(env, c))
            && (c.state != Loaded && !InitErrorPending(c) ==> c1 == c)
            && (LoadedOrCreated(c1.state) <==> c1.state == Created || UnderLoaded(c1.state))
  {
    hide Resources, Within, Drained, Failed, ProgramStateOf;
    ProgramStateIs(Drained(env, c, Unload).state);
    FailedIsDowned(env, c);
    DrainedIsPost(env, c, Unload);
  }

  // ------------------------------------------------------------------------------------------------
  // Events
  // ------------------------------------------------------------------------------------------------

  /** The event is for the channel of the held network. */
  predicate ForMyChannel(c: Config, event: DeviceStateInfo) {
    c.qnn.Some? && c.qnn.value.vcId == event.vcId && event.vcId != INVALID_VCID
  }

  /** The event reports a failure: of the device, or of the held network's channel that did not come back in time. */
  predicate ReportsFailure(dev: nat, c: Config, event: DeviceStateInfo) {
    event.qid == dev && (event.kind == DownEvent || (event.kind == VcUpWaitTimerExpiry && ForMyChannel(c, event)))
  }

  /** The event is posted to the program at all. */
  predicate Concerns(dev: nat, c: Config, event: DeviceStateInfo) {
    && event.qid == dev
    && (event.kind == DownEvent || event.kind == UpEvent
        || (event.kind != OtherEvent && ForMyChannel(c, event)))
  }

  /** What an event does in each resting state. */
  lemma NotifyIs(env: Env, dev: nat, c: Config, event: DeviceStateInfo)
    requires Rest(c)
    ensures var (c1, status) := NotifyCall(env, dev, c, event); var q := env.query(c.queries);
            && status == Success
            && c1 ==
               if !Concerns(dev, c, event) then c
               else if InitErrorPending(c) then Downed(env, c)
               else if c.state == DeviceError then
                 if event.kind != UpEvent then c
                 else c.(queries := c.queries + 1, validated := q, state := if q then Created else DeviceError)
               else if c.state != LoadFailed && ReportsFailure(dev, c, event) then Downed(env, c)
               else c
  {
    hide Resources, Within, Drained, Failed, ProgramStateOf;
    FailedIsDowned(env, c);
    var sig := SignalOf(dev, c, event);
    SignalIs(dev, c, event);
    if sig.Some? { DrainedIsPost(env, c, sig.value); }
    if c.state == DeviceError { ErrorIsInvalid(c); }
  }

  lemma ErrorIsInvalid(c: Config)
    requires Rest(c) && c.state == DeviceError
    ensures !c.validated
  {
  }

  lemma SignalIs(dev: nat, c: Config, event: DeviceStateInfo)
    ensures var sig := SignalOf(dev, c, event);
            && (sig.Some? <==> Concerns(dev, c, event))
            && (sig == Some(DeviceDown) <==> ReportsFailure(dev, c, event))
            && (sig == Some(DeviceUp) <==> event.qid == dev && event.kind == UpEvent)
            && (sig.Some? ==> sig.value in [DeviceDown, DeviceUp, VcDown, VcUp])
  {
  }

  // ------------------------------------------------------------------------------------------------
  // Execution objects
  // ------------------------------------------------------------------------------------------------

  /** Registering adds the object, behind the others. */
  lemma RegisterIs(c: Config, x: nat)
    ensures var (c1, status) := RegisterCall(c, x);
            && status == Success && c1 == c.(execObjs := c1.execObjs)
            && |c1.execObjs| == |c.execObjs| + 1 && c1.execObjs[|c.execObjs|] == x && c.execObjs <= c1.execObjs
  {
  }

  /** Unregistering takes out exactly the first occurrence of the object, and reports whether there is one. */
  lemma UnregisterIs(c: Config, x: nat)
    ensures var (c1, status) := UnregisterCall(c, x);
            && status == (if x in c.execObjs then Success else Inval) && c1 == c.(execObjs := c1.execObjs)
            && multiset(c1.execObjs) == multiset(c.execObjs) - multiset{x}
            && (x in c.execObjs ==> exists i :: 0 <= i < |c.execObjs| && c.execObjs[i] == x && x !in c.execObjs[..i]
                                      && c1.execObjs == c.execObjs[..i] + c.execObjs[i + 1..])
  {
    var i := Find(c.execObjs, x);
    var s := c.execObjs;
    if i < |s| {
      assert s == s[..i] + [x] + s[i + 1..];
    } else {
      assert s[..i] == s;
    }
  }

  lemma {:induction false} FoundAt(s: seq<nat>, n: nat, x: nat)
    requires n < |s| && s[n] == x && x !in s[..n]
    ensures Find(s, x) == n
  {
    if n > 0 {
      assert s[..n] == [s[0]] + s[1..][..n - 1];
      FoundAt(s[1..], n - 1, x);
    }
  }

  /** A registered object can be unregistered, and all is as before. */
  lemma UnregisterUndoes(c: Config, x: nat)
    requires x !in c.execObjs
    ensures UnregisterCall(RegisterCall(c, x).0, x) == (c, Success)
  {
    var s := c.execObjs + [x];
    var n := |c.execObjs|;
    assert s[n] == x && s[..n] == c.execObjs;
    FoundAt(s, n, x);
    assert s[..n] + s[n + 1..] == c.execObjs;
  }
}
