/**
 The public calls of a program device as functions of the configuration, and the properties of whole runs of
 calls and device events.
 */
module ProgramCalls {
  import opened Wrappers
  import opened StateHierarchy
  import opened ProgramHsm
  import opened ProgramDrain
  import opened ProgramLifecycle

  datatype ProgramState =
    | ProgramCreated | ProgramLoaded | ProgramReady
    | ProgramLoadError | ProgramActivateError | ProgramDeviceError | ProgramTransition

  datatype ActivationCmd = ActivateFull | DeactivateFull | InvalidCmd

  datatype EventKind = DownEvent | UpEvent | VcDownEvent | VcUpEvent | VcUpWaitTimerExpiry | OtherEvent

  datatype DeviceStateInfo = DeviceStateInfo(qid: nat, vcId: nat, kind: EventKind)

  datatype Op =
    | OpLoad
    | OpUnload
    | OpCommand(cmd: ActivationCmd)
    | OpNotify(event: DeviceStateInfo)
    | OpRegister(execObj: nat)
    | OpUnregister(execObj: nat)

  function Within(s: State, a: State): bool {
    NestingIsWellFormed();
    IsIn(NESTING, s, a)
  }

  /** The tests are made in this order, the deepest state first. */
  function ProgramStateOf(s: State): ProgramState {
    if Within(s, AcReady) then ProgramReady
    else if Within(s, LoadedSuper) then ProgramLoaded
    else if Within(s, Created) || Within(s, CreatedSuper) then ProgramCreated
    else if Within(s, ErrorSuper) then
      if Within(s, ActivateFailed) then ProgramActivateError
      else if Within(s, LoadFailed) then ProgramLoadError
      else if Within(s, DeviceError) then ProgramDeviceError
      else ProgramTransition
    else ProgramTransition
  }

  /** The reported state of every leaf; activate_failed lies in loaded_super, so it reads as loaded. */
  lemma ProgramStateIs(s: State)
    requires Leaf(s)
    ensures ProgramStateOf(s) ==
            match s
            case AcReady => ProgramReady
            case Created | Loading | Unloading => ProgramCreated
            case LoadFailed => ProgramLoadError
            case DeviceError => ProgramDeviceError
            case _ => ProgramLoaded
    ensures Within(s, LoadedSuper) <==> UnderLoaded(s)
    ensures Within(s, ActiveSuper) <==> s == AcReady || s == AcDeactivating
  {
    hide ProgramStateOf;
    forall a ensures Within(s, a) <==> Contains(a, s) { LeafLiesIn(s, a); }
    StateByTests(s);
  }

  lemma StateByTests(s: State)
    ensures ProgramStateOf(s) ==
            if Within(s, AcReady) then ProgramReady
            else if Within(s, LoadedSuper) then ProgramLoaded
            else if Within(s, Created) || Within(s, CreatedSuper) then ProgramCreated
            else if !Within(s, ErrorSuper) then ProgramTransition
            else if Within(s, ActivateFailed) then ProgramActivateError
            else if Within(s, LoadFailed) then ProgramLoadError
            else if Within(s, DeviceError) then ProgramDeviceError
            else ProgramTransition
  {
  }

  /** The nesting written out for the leaf states. */
  predicate Contains(a: State, s: State) {
    || a == s
    || a == Top
    || (a == CreatedSuper && UnderCreated(s))
    || (a == LoadedSuper && UnderLoaded(s))
    || (a == ActiveSuper && (s == AcReady || s == AcDeactivating))
    || (a == ErrorSuper && (s == DeviceError || s == LoadFailed))
  }

  lemma LeafLiesIn(s: State, a: State)
    requires Leaf(s)
    ensures Within(s, a) <==> Contains(a, s)
  {
    hide IsIn;
    OneLevel(Top, a);
    OneLevel(CreatedSuper, a);
    OneLevel(ErrorSuper, a);
    OneLevel(LoadedSuper, a);
    OneLevel(ActiveSuper, a);
    OneLevel(s, a);
  }

  lemma OneLevel(s: State, a: State)
    ensures Within(s, a) <==> s == a || (s != Top && Within(Parent(s), a))
  {
  }

  /** No state of this machine reports STATE_PROGRAM_ACTIVATE_ERROR. */
  lemma ActivateErrorIsNeverReported(s: State)
    ensures ProgramStateOf(s) != ProgramActivateError
  {
    if s.ActivateFailed? {
      ProgramStateIs(s);
    } else if Within(s, ActivateFailed) {
      NestingIsWellFormed();
      OnlyItselfIn(s, ActivateFailed);
    }
  }

  /** A leaf contains no other state. */
  lemma {:induction false} OnlyItselfIn(s: State, a: State)
    requires WellFormed(NESTING) && Leaf(a) && IsIn(NESTING, s, a)
    ensures s == a
    decreases Depth(s)
  {
    if s != a { OnlyItselfIn(Parent(s), a); }
  }

  // ------------------------------------------------------------------------------------------------
  // The public calls
  // ------------------------------------------------------------------------------------------------

  /** The drain of this call would not end: an ACTIVATE from created whose load never succeeds. */
  ghost predicate Hangs(env: Env, c: Config, sig: Signal) {
    sig == Activate && c.state == Created && c.signals == [] && !LoadsEventually(env, c)
  }

  /** The guard above is exact. */
  lemma HangsIff(env: Env, c: Config, sig: Signal)
    requires Rest(c) && Postable(c, sig)
    ensures Inv(Push(c, sig))
    ensures Diverges(env, Push(c, sig)) <==> Hangs(env, c, sig)
    ensures Drains(env, Push(c, sig)) <==> !Hangs(env, c, sig)
  {
    PostEstablishesInv(c, sig);
    DrainTerminatesIff(env, Push(c, sig));
    SameFetches(env, c, Push(c, sig));
  }

  /** Post one signal and drain the queue. */
  ghost function Drained(env: Env, c: Config, sig: Signal): (r: Config)
    requires Rest(c) && Postable(c, sig) && !Hangs(env, c, sig)
    ensures Rest(r) && r.signals == [] && r.execObjs == c.execObjs
  {
    HangsIff(env, c, sig);
    Settled(env, Push(c, sig))
  }

  lemma DrainedIsPost(env: Env, c: Config, sig: Signal)
    requires Rest(c) && Postable(c, sig) && !Hangs(env, c, sig)
    ensures !Diverges(env, Push(c, sig)) && Drained(env, c, sig) == Post(env, c, sig)
  {
    HangsIff(env, c, sig);
    SettledIsPost(env, c, sig);
  }

  function StatusIf(ok: bool): Status { if ok then Success else Error }

  function LoadedOrCreated(s: State): bool {
    ProgramStateOf(s) == ProgramLoaded || ProgramStateOf(s) == ProgramCreated
  }

  ghost function LoadCall(env: Env, c: Config): (r: (Config, Status))
    requires Rest(c)
    ensures Rest(r.0)
  {
    if Within(c.state, LoadedSuper) then (c, Success)
    else
      var c1 := Drained(env, c, Load);
      (c1, StatusIf(ProgramStateOf(c1.state) == ProgramLoaded))
  }

  ghost predicate CanActivate(env: Env, c: Config) {
    Within(c.state, AcReady) || !Hangs(env, c, Activate)
  }

  ghost function ActivateCall(env: Env, c: Config): (r: (Config, Status))
    requires Rest(c) && CanActivate(env, c)
    ensures Rest(r.0)
  {
    if Within(c.state, AcReady) then (c, Success)
    else
      LeafLiesIn(c.state, AcReady);
      var c1 := Drained(env, c, Activate);
      (c1, StatusIf(Within(c1.state, AcReady)))
  }

  ghost function DeactivateCall(env: Env, c: Config): (r: (Config, Status))
    requires Rest(c)
    ensures Rest(r.0)
  {
    var c1 := Drained(env, c, Deactivate);
    (c1, StatusIf(LoadedOrCreated(c1.state)))
  }

  ghost function CommandCall(env: Env, c: Config, cmd: ActivationCmd): (r: (Config, Status))
    requires Rest(c) && (cmd == ActivateFull ==> CanActivate(env, c))
    ensures Rest(r.0)
  {
    match cmd
    case ActivateFull => ActivateCall(env, c)
    case DeactivateFull => if |c.execObjs| > 0 then (c, Inval) else DeactivateCall(env, c)
    case InvalidCmd => (c, Inval)
  }

  ghost function UnloadCall(env: Env, c: Config): (r: (Config, Status))
    requires Rest(c)
    ensures Rest(r.0)
  {
    if Within(c.state, ActiveSuper) && |c.execObjs| > 0 then (c, Error)
    else
      var c1 := if Within(c.state, ActiveSuper) then Drained(env, c, Deactivate) else c;
      var c2 := Drained(env, c1, Unload);
      (c2, StatusIf(LoadedOrCreated(c2.state)))
  }

  /** No network runs on this channel. */
  const INVALID_VCID: nat := 0xFFFF_FFFF

  /** The signal a device event is turned into; events of other devices and channels are ignored. */
  function SignalOf(dev: nat, c: Config, event: DeviceStateInfo): (sig: Option<Signal>)
    ensures sig.Some? ==> External(sig.value) && sig.value != Activate
    ensures event.qid != dev || event.kind.OtherEvent? ==> sig == None
    ensures event.qid == dev && event.kind.DownEvent? ==> sig == Some(DeviceDown)
    ensures event.qid == dev && event.kind.UpEvent? ==> sig == Some(DeviceUp)
    ensures event.kind.VcDownEvent? || event.kind.VcUpEvent? || event.kind.VcUpWaitTimerExpiry? ==>
      (sig.Some? <==> event.qid == dev && c.qnn.Some? && c.qnn.value.vcId == event.vcId != INVALID_VCID)
    ensures sig.Some? && event.kind.VcDownEvent? ==> sig.value == VcDown
    ensures sig.Some? && event.kind.VcUpEvent? ==> sig.value == VcUp
    ensures sig.Some? && event.kind.VcUpWaitTimerExpiry? ==> sig.value == DeviceDown
  {
    var vcId := if c.qnn.Some? then c.qnn.value.vcId else INVALID_VCID;
    var myChannel := vcId != INVALID_VCID && vcId == event.vcId;
    if event.qid != dev then None
    else match event.kind
      case DownEvent => Some(DeviceDown)
      case UpEvent => Some(DeviceUp)
      case VcDownEvent => if myChannel then Some(VcDown) else None
      case VcUpEvent => if myChannel then Some(VcUp) else None
      case VcUpWaitTimerExpiry => if myChannel then Some(DeviceDown) else None
      case OtherEvent => None
  }

  ghost function NotifyCall(env: Env, dev: nat, c: Config, event: DeviceStateInfo): (r: (Config, Status))
    requires Rest(c)
    ensures Rest(r.0)
  {
    match SignalOf(dev, c, event)
    case None => (c, Success)
    case Some(sig) => (Drained(env, c, sig), Success)
  }

  function RegisterCall(c: Config, execObj: nat): (Config, Status) {
    (c.(execObjs := c.execObjs + [execObj]), Success)
  }

  /** The first position of `x`, or the length if there is none. */
  function Find(s: seq<nat>, x: nat): (i: nat)
    ensures i <= |s| && (i < |s| ==> s[i] == x) && x !in s[..i]
  {
    if s == [] then 0 else if s[0] == x then 0
    else
      var i := Find(s[1..], x) + 1;
      assert s[..i] == [s[0]] + s[1..][..i - 1];
      i
  }

  function UnregisterCall(c: Config, execObj: nat): (Config, Status) {
    var i := Find(c.execObjs, execObj);
    if i < |c.execObjs| then (c.(execObjs := c.execObjs[..i] + c.execObjs[i + 1..]), Success)
    else (c, Inval)
  }

  ghost predicate Callable(env: Env, c: Config, op: Op) {
    op == OpCommand(ActivateFull) ==> CanActivate(env, c)
  }

  ghost function Call(env: Env, dev: nat, c: Config, op: Op): (r: (Config, Status))
    requires Rest(c) && Callable(env, c, op)
    ensures Rest(r.0)
  {
    match op
    case OpLoad => LoadCall(env, c)
    case OpUnload => UnloadCall(env, c)
    case OpCommand(cmd) => CommandCall(env, c, cmd)
    case OpNotify(event) => NotifyCall(env, dev, c, event)
    case OpRegister(x) => RegisterCall(c, x)
    case OpUnregister(x) => UnregisterCall(c, x)
  }

  // ------------------------------------------------------------------------------------------------
  // Runs
  // ------------------------------------------------------------------------------------------------

  /** The device just constructed: created_super is entered and validates the device. */
  function Initial(env: Env, execObjs: seq<nat>): (c: Config)
    ensures Rest(c)
  {
    Enter(env, Created,
      Enter(env, CreatedSuper, Config(Created, [], false, None, None, None, execObjs, 0, 0, 0, 0)))
  }

  /** The configuration after a run of calls; None when a call of the run never returns. */
  ghost function Run(env: Env, dev: nat, c: Config, ops: seq<Op>): (r: Option<Config>)
    requires Rest(c)
    ensures r.Some? ==> Rest(r.value)
    decreases |ops|
  {
    if ops == [] then Some(c)
    else if !Callable(env, c, ops[0]) then None
    else Run(env, dev, Call(env, dev, c, ops[0]).0, ops[1..])
  }

  /** Whatever the run, a ready program holds a live network, a loaded image and a validated device. */
  lemma ReadyIsBacked(env: Env, dev: nat, execObjs: seq<nat>, ops: seq<Op>)
    ensures var r := Run(env, dev, Initial(env, execObjs), ops);
            r.Some? ==>
              && (InitErrorPending(r.value) || (Resting(r.value.state) && r.value.signals == []))
              && (r.value.state == AcReady ==>
                    r.value.qnn.Some? && r.value.deviceImage.Some? && r.value.nnImage.Some? && r.value.validated)
              && (UnderLoaded(r.value.state) ==> r.value.deviceImage.Some? && r.value.nnImage.Some?)
  {
  }

  predicate DownFor(dev: nat, c: Config, op: Op) {
    op.OpNotify? && SignalOf(dev, c, op.event) == Some(DeviceDown)
  }

  /** While an execution object is registered, only a device failure makes a ready program leave that state. */
  lemma ReadyLeavesOnlyOnFailure(env: Env, dev: nat, c: Config, op: Op)
    requires Rest(c) && c.state == AcReady && c.execObjs != []
    ensures Callable(env, c, op)
    ensures var c1 := Call(env, dev, c, op).0;
            && (DownFor(dev, c, op) ==> c1.state == DeviceError)
            && (!DownFor(dev, c, op) ==> c1 == c.(execObjs := c1.execObjs))
            && (!op.OpUnregister? ==> c.execObjs <= c1.execObjs)
  {
    hide Resources, Within, ProgramStateOf, Drained, Settled, DeactivateAction;
    LeafLiesIn(AcReady, AcReady);
    LeafLiesIn(AcReady, LoadedSuper);
    LeafLiesIn(AcReady, ActiveSuper);
    if op.OpNotify? && SignalOf(dev, c, op.event).Some? {
      DrainedIsPost(env, c, SignalOf(dev, c, op.event).value);
    }
  }

  /** A run without a failure of the device, during which the registered objects stay. */
  predicate Undisturbed(dev: nat, c: Config, ops: seq<Op>) {
    forall i :: 0 <= i < |ops| ==> !ops[i].OpUnregister? && !DownFor(dev, c, ops[i])
  }

  lemma {:induction false} ReadyIsHeld(env: Env, dev: nat, c: Config, ops: seq<Op>)
    requires Rest(c) && c.state == AcReady && c.execObjs != [] && Undisturbed(dev, c, ops)
    ensures var r := Run(env, dev, c, ops);
            r.Some? && c.execObjs <= r.value.execObjs && r.value == c.(execObjs := r.value.execObjs)
    decreases |ops|
  {
    if ops != [] {
      ReadyLeavesOnlyOnFailure(env, dev, c, ops[0]);
      var c1 := Call(env, dev, c, ops[0]).0;
      assert Undisturbed(dev, c1, ops[1..]) by {
        forall i | 0 <= i < |ops[1..]| ensures !ops[1..][i].OpUnregister? && !DownFor(dev, c1, ops[1..][i]) {
          assert ops[1..][i] == ops[i + 1];
        }
      }
      ReadyIsHeld(env, dev, c1, ops[1..]);
    }
  }

  /** A device-down event ends in device_error, except from load_failed, which does not handle it. */
  lemma DownEndsInDeviceError(env: Env, dev: nat, c: Config, event: DeviceStateInfo)
    requires Rest(c) && event.qid == dev && event.kind == DownEvent
    ensures var c1 := NotifyCall(env, dev, c, event).0;
            (c1.state == DeviceError <==> c.state != LoadFailed) && (c.state == LoadFailed ==> c1 == c)
  {
    DrainedIsPost(env, c, DeviceDown);
  }

  /** In device_error only a device-up event whose validation succeeds has an effect on the device. */
  lemma DeviceErrorStep(env: Env, dev: nat, c: Config, op: Op)
    requires Rest(c) && c.state == DeviceError
    ensures Callable(env, c, op)
    ensures var (c1, status) := Call(env, dev, c, op);
            var up := op.OpNotify? && op.event.qid == dev && op.event.kind == UpEvent;
            && (c1.state == DeviceError <==> !(up && env.query(c.queries)))
            && c1.fetches == c.fetches && c1.activations == c.activations && c1.teardowns == c.teardowns
            && c1.queries == c.queries + (if up then 1 else 0)
            && ((op.OpLoad? || op.OpUnload?) ==> status == Error)
            && (op.OpCommand? ==> status == Error || status == Inval)
  {
    hide Resources, Within, ProgramStateOf, Drained;
    LeafLiesIn(DeviceError, LoadedSuper);
    LeafLiesIn(DeviceError, ActiveSuper);
    LeafLiesIn(DeviceError, AcReady);
    ProgramStateIs(DeviceError);
    match op
    case OpLoad => DeviceErrorIgnores(env, c, Load);
    case OpUnload => DeviceErrorIgnores(env, c, Unload);
    case OpCommand(cmd) => DeviceErrorIgnores(env, c, Activate); DeviceErrorIgnores(env, c, Deactivate);
    case OpNotify(event) =>
      var sig := SignalOf(dev, c, event);
      if sig == Some(DeviceUp) { DeviceErrorRecovers(env, c); }
      else if sig.Some? { DeviceErrorIgnores(env, c, sig.value); }
    case _ =>
  }

  lemma DeviceErrorIgnores(env: Env, c: Config, sig: Signal)
    requires Rest(c) && c.state == DeviceError && External(sig) && sig != DeviceUp
    ensures Drained(env, c, sig) == c
  {
    DrainedIsPost(env, c, sig);
  }

  /** A device-up event queries the device once, and leads to created iff the query succeeds. */
  lemma DeviceErrorRecovers(env: Env, c: Config)
    requires Rest(c) && c.state == DeviceError
    ensures Drained(env, c, DeviceUp) ==
            var c1 := c.(queries := c.queries + 1, validated := env.query(c.queries));
            if env.query(c.queries) then At(c1, Created, []) else c1
  {
    DrainedIsPost(env, c, DeviceUp);
  }

  /** As long as no validation succeeds, a failed device stays failed and nothing is loaded or activated. */
  lemma {:induction false} DeviceErrorIsContained(env: Env, dev: nat, c: Config, ops: seq<Op>)
    requires Rest(c) && c.state == DeviceError
    requires forall k :: c.queries <= k < c.queries + |ops| ==> !env.query(k)
    ensures var r := Run(env, dev, c, ops);
            && r.Some? && r.value.state == DeviceError
            && r.value.fetches == c.fetches && r.value.activations == c.activations
            && r.value.teardowns == c.teardowns
    decreases |ops|
  {
    if ops != [] {
      DeviceErrorStep(env, dev, c, ops[0]);
      DeviceErrorIsContained(env, dev, Call(env, dev, c, ops[0]).0, ops[1..]);
    }
  }

  /**
   Unloading reports success and leaves the image loaded exactly after a failed activation: that state handles no
   UNLOAD, but it lies in loaded_super.
   */
  lemma UnloadKeepsImageIff(env: Env, c: Config)
    requires Rest(c)
    ensures var (c1, status) := UnloadCall(env, c);
            status == Success && UnderLoaded(c1.state) <==> c.state == ActivateFailed
    ensures c.state == ActivateFailed ==> UnloadCall(env, c).0 == c
  {
    hide Resources, Within, ProgramStateOf, Drained, Post;
    LeafLiesIn(c.state, ActiveSuper);
    var c1 := c;
    if c.state == AcReady {
      c1 := Drained(env, c, Deactivate);
      ReadyDeactivates(env, c);
    }
    if !(c.state == AcReady && |c.execObjs| > 0) {
      UnloadAtRest(env, c1);
      ProgramStateIs(Drained(env, c1, Unload).state);
    } else {
      ProgramStateIs(c.state);
    }
  }

  lemma ReadyDeactivates(env: Env, c: Config)
    requires Rest(c) && c.state == AcReady
    ensures var c1 := Drained(env, c, Deactivate);
            (c1.state == Loaded && c1.qnn.None?) || c1.state == DeviceError
  {
    DrainedIsPost(env, c, Deactivate);
  }

  /** UNLOAD releases the image of a loaded program and does nothing to a program that is not loaded. */
  lemma UnloadAtRest(env: Env, c: Config)
    requires Rest(c) && c.state != AcReady
    ensures var c1 := Drained(env, c, Unload);
            && c1.state == (if c.state == Loaded then Created else if InitErrorPending(c) then DeviceError else c.state)
            && (c.state == Loaded ==> c1.deviceImage.None? && c1.nnImage.None?)
            && (c.state != Loaded && !InitErrorPending(c) ==> c1 == c)
  {
    DrainedIsPost(env, c, Unload);
  }

  /** Activating from created fetches until an image arrives, activates once, and is ready iff that succeeded. */
  lemma ActivateFromCreated(env: Env, c: Config)
    requires Rest(c) && c.state == Created && c.signals == [] && LoadsEventually(env, c)
    ensures var (c1, status) := ActivateCall(env, c);
            var outcome := env.activate(c.activations);
            && (status == Success <==> outcome.ok && outcome.nn.Some?)
            && c1.state == (if status == Success then AcReady else ActivateFailed)
            && c1.qnn == outcome.nn
            && c1.activations == c.activations + 1
            && (c.deviceImage.None? ==> c1.fetches == c.fetches + FailuresBeforeLoad(env, c) + 1)
  {
    hide Resources, Within, ProgramStateOf, Drained, LoadedAtLast, LoadsEventually, FailuresBeforeLoad;
    LeafLiesIn(Created, AcReady);
    DrainedIsPost(env, c, Activate);
    LoadedAtLastFetches(env, c);
    LeafLiesIn(Post(env, c, Activate).state, AcReady);
  }

  lemma {:induction false} LoadedAtLastFetches(env: Env, c: Config)
    requires LoadsEventually(env, c)
    ensures var c1 := LoadedAtLast(env, c);
            && c1.activations == c.activations && c1.nnImage.Some?
            && (c.deviceImage.None? ==> c1.fetches == c.fetches + FailuresBeforeLoad(env, c) + 1)
    decreases FailuresBeforeLoad(env, c)
  {
    LoadActionFacts(env, c);
    var c1 := LoadedOnce(env, c);
    SameFetches(env, LoadAction(env, c).0, c1);
    if c1.state != Loaded { LoadedAtLastFetches(env, c1); }
  }
}
