/**
 The program device as an object: the handlers and actions update its fields, the dispatcher walks the state
 hierarchy with loops, and `Run` drains the signal queue. Every method is specified by the function of the same
 name; the properties of those functions are proved in the modules imported here.
 */
module ProgramDevice {
  import opened Wrappers
  import opened StateHierarchy
  import opened ProgramHsm
  import D = ProgramDrain
  import C = ProgramCalls

  class Device {
    const env: Env
    const dev: nat
    var state: State
    var signals: seq<Signal>
    var validated: bool
    var deviceImage: Option<DeviceImage>
    var nnImage: Option<nat>
    var qnn: Option<Network>
    var execObjs: seq<nat>
    // How often each operation of the device was invoked.
    var queries: nat
    var fetches: nat
    var activations: nat
    var teardowns: nat

    ghost function Cfg(): Config
      reads this
    {
      Config(state, signals, validated, deviceImage, nnImage, qnn, execObjs, queries, fetches, activations, teardowns)
    }

    /** Construction and the initial transition to created. */
    constructor (env: Env, dev: nat)
      ensures this.env == env && this.dev == dev
      ensures Cfg() == C.Initial(env, [])
    {
      this.env, this.dev := env, dev;
      state, signals, validated := Created, [], false;
      deviceImage, nnImage, qnn, execObjs := None, None, None, [];
      queries, fetches, activations, teardowns := 0, 0, 0, 0;
      new;
      EnterState(CreatedSuper);
      EnterState(Created);
    }

    method SetSignal(sig: Signal)
      modifies this
      ensures Cfg() == Push(old(Cfg()), sig)
    {
      signals := signals + [sig];
    }

    // ----------------------------------------------------------------------------------------------
    // Actions
    // ----------------------------------------------------------------------------------------------

    method Validate() returns (ok: bool)
      modifies this
      ensures (Cfg(), ok) == ValidateAction(env, old(Cfg()))
    {
      if !validated {
        var ready := env.query(queries);
        queries := queries + 1;
        if !ready { return false; }
      }
      validated := true;
      return true;
    }

    method LoadImage() returns (ok: bool)
      modifies this
      ensures (Cfg(), ok) == LoadAction(env, old(Cfg()))
    {
      if deviceImage.None? {
        deviceImage := env.fetch(fetches);
        fetches := fetches + 1;
        if deviceImage.None? { return false; }
      }
      nnImage := deviceImage.value.nnImage;
      return nnImage.Some?;
    }

    method UnloadImage()
      modifies this
      ensures Cfg() == UnloadAction(old(Cfg()))
    {
      deviceImage := None;
      nnImage := None;
    }

    method ActivateNetwork() returns (ok: bool)
      modifies this
      ensures (Cfg(), ok) == ActivateAction(env, old(Cfg()))
    {
      var outcome := env.activate(activations);
      activations := activations + 1;
      qnn := outcome.nn;
      return outcome.ok && qnn.Some?;
    }

    method DeactivateNetwork() returns (ok: bool)
      modifies this
      ensures (Cfg(), ok) == DeactivateAction(env, old(Cfg()))
    {
      if qnn.Some? {
        var done := env.teardown(teardowns);
        teardowns := teardowns + 1;
        if !done { return false; }
        qnn := None;
      }
      return true;
    }

    // ----------------------------------------------------------------------------------------------
    // Handlers and dispatcher
    // ----------------------------------------------------------------------------------------------

    method EnterState(s: State)
      modifies this
      ensures Cfg() == Enter(env, s, old(Cfg()))
    {
      match s
      case CreatedSuper =>
        var ok := Validate();
        if !ok { SetSignal(InitError); }
      case Loading =>
        var ok := LoadImage();
        SetSignal(if ok then LoadComplete else LoadFail);
      case Unloading =>
        UnloadImage();
        SetSignal(UnloadComplete);
      case Activating =>
        var ok := ActivateNetwork();
        SetSignal(if ok then ActivateComplete else ActivateFail);
      case AcDeactivating =>
        var ok := DeactivateNetwork();
        SetSignal(if ok then DeactivateComplete else DeviceDown);
      case DeviceError =>
        var _ := DeactivateNetwork();
        validated := false;
      case _ =>
    }

    method HandleCreatedSuper(sig: Signal) returns (r: Reaction)
      modifies this
      ensures (Cfg(), r) == React(env, CreatedSuper, sig, old(Cfg()))
    {
      r := Super;
      if sig == InitError {
        SetSignal(DeviceDown);
      } else if sig == Activate {
        SetSignal(Load);
        SetSignal(Activate);
      } else if sig == DeviceDown {
        r := Tran(DeviceError);
      }
    }

    method HandleDeviceError(sig: Signal) returns (r: Reaction)
      modifies this
      ensures (Cfg(), r) == React(env, DeviceError, sig, old(Cfg()))
    {
      r := Super;
      if sig == DeviceUp {
        var ok := Validate();
        if ok { r := Tran(Created); }
      }
    }

    /** The handlers of all other states only ask for transitions. */
    method HandleOther(s: State, sig: Signal) returns (r: Reaction)
      requires s != CreatedSuper && s != DeviceError
      ensures (Cfg(), r) == React(env, s, sig, Cfg())
    {
      r := Super;
      if s == Created {
        if sig == Load { r := Tran(Loading); }
      } else if s == Loading {
        if sig == LoadFail { r := Tran(LoadFailed); }
        if sig == LoadComplete { r := Tran(Loaded); }
      } else if s == Unloading {
        if sig == UnloadComplete { r := Tran(Created); }
      } else if s == Loaded {
        if sig == Activate { r := Tran(Activating); }
        if sig == Unload { r := Tran(Unloading); }
      } else if s == Activating {
        if sig == ActivateFail { r := Tran(ActivateFailed); }
        if sig == ActivateComplete { r := Tran(AcReady); }
      } else if s == ActivateFailed {
        if sig == Activate { r := Tran(Activating); }
      } else if s == ActiveSuper {
        if sig == Deactivate { r := Tran(AcDeactivating); }
      } else if s == AcDeactivating {
        if sig == DeactivateComplete { r := Tran(Loaded); }
      } else if s == LoadFailed {
        if sig == Load { r := Tran(Loading); }
      }
    }

    method Handle(s: State, sig: Signal) returns (r: Reaction)
      modifies this
      ensures (Cfg(), r) == React(env, s, sig, old(Cfg()))
    {
      hide React;
      if s == CreatedSuper {
        r := HandleCreatedSuper(sig);
      } else if s == DeviceError {
        r := HandleDeviceError(sig);
      } else {
        r := HandleOther(s, sig);
      }
    }

    /** Offers the event to the current state and then to its super-states. */
    method OfferEvent(sig: Signal) returns (tr: Option<Transition>)
      modifies this
      ensures (Cfg(), tr) == Bubble(env, old(state), sig, old(Cfg()))
      ensures state == old(state)
    {
      hide React;
      var s := state;
      tr := None;
      while s != Top && tr.None?
        invariant state == old(state)
        invariant Bubble(env, old(state), sig, old(Cfg())) ==
                  if tr.None? then Bubble(env, s, sig, Cfg()) else (Cfg(), tr)
        decreases Depth(s), tr.None?
      {
        HandlersKeepState(env, s, sig, Cfg());
        var r := Handle(s, sig);
        if r.Tran? { tr := Some(Transition(s, r.target)); } else { s := Parent(s); }
      }
    }

    /** Enters the states from below the scope of the transition down to its target, outermost first. */
    method TakeTransition(tr: Transition)
      modifies this
      ensures Cfg() == EnterAll(env, EntryPath(tr), old(Cfg())).(state := tr.target)
    {
      hide Enter;
      NestingIsWellFormed();
      var scope, t, path := Scope(tr), tr.target, [];
      while t != scope && t != Top
        invariant EntryPath(tr) == PathDown(NESTING, scope, t) + path
        decreases Depth(t)
      {
        path := [t] + path;
        t := Parent(t);
      }
      assert EntryPath(tr) == path;
      while path != []
        invariant EnterAll(env, EntryPath(tr), old(Cfg())) == EnterAll(env, path, Cfg())
        decreases |path|
      {
        EnterState(path[0]);
        path := path[1..];
      }
      state := tr.target;
    }

    /** Handles one event. No handler does anything on exit, so leaving the source states is not spelled out. */
    method DispatchEvent(sig: Signal)
      modifies this
      ensures Cfg() == Dispatch(env, sig, old(Cfg()))
    {
      hide Bubble, EnterAll, EntryPath;
      var tr := OfferEvent(sig);
      if tr.Some? { TakeTransition(tr.value); }
    }

    /** Drains the queue. */
    method Run()
      requires D.Inv(Cfg()) && !D.Diverges(env, Cfg())
      modifies this
      ensures D.Inv(old(Cfg())) && !D.Diverges(env, old(Cfg()))
      ensures Cfg() == D.Settled(env, old(Cfg()))
    {
      while signals != []
        invariant D.Inv(Cfg()) && !D.Diverges(env, Cfg())
        invariant D.Settled(env, Cfg()) == D.Settled(env, old(Cfg()))
        decreases D.FailuresLeft(env, Cfg()), D.Weight(Cfg())
      {
        D.DrainMakesProgress(env, Cfg());
        D.StepKeepsInv(env, Cfg());
        var sig := signals[0];
        signals := signals[1..];
        DispatchEvent(sig);
      }
    }

    /** Posts an external signal and drains the queue. */
    method PostAndRun(sig: Signal)
      requires D.Rest(Cfg()) && D.Postable(Cfg(), sig) && !C.Hangs(env, Cfg(), sig)
      modifies this
      ensures D.Rest(old(Cfg())) && Cfg() == C.Drained(env, old(Cfg()), sig)
    {
      C.HangsIff(env, Cfg(), sig);
      SetSignal(sig);
      Run();
    }

    // ----------------------------------------------------------------------------------------------
    // Public calls
    // ----------------------------------------------------------------------------------------------

    method LoadProgram() returns (status: Status)
      requires D.Rest(Cfg())
      modifies this
      ensures (Cfg(), status) == C.LoadCall(env, old(Cfg()))
    {
      if C.Within(state, LoadedSuper) { return Success; }
      PostAndRun(Load);
      return if C.ProgramStateOf(state) == C.ProgramLoaded then Success else Error;
    }

    method ActivateProgram() returns (status: Status)
      requires D.Rest(Cfg()) && C.CanActivate(env, Cfg())
      modifies this
      ensures (Cfg(), status) == C.ActivateCall(env, old(Cfg()))
    {
      if C.Within(state, AcReady) { return Success; }
      C.LeafLiesIn(state, AcReady);
      PostAndRun(Activate);
      return if C.Within(state, AcReady) then Success else Error;
    }

    method DeactivateProgram() returns (status: Status)
      requires D.Rest(Cfg())
      modifies this
      ensures (Cfg(), status) == C.DeactivateCall(env, old(Cfg()))
    {
      PostAndRun(Deactivate);
      return if C.LoadedOrCreated(state) then Success else Error;
    }

    method ProcessActivateCmd(cmd: C.ActivationCmd) returns (status: Status)
      requires D.Rest(Cfg()) && (cmd == C.ActivateFull ==> C.CanActivate(env, Cfg()))
      modifies this
      ensures (Cfg(), status) == C.CommandCall(env, old(Cfg()), cmd)
    {
      match cmd
      case ActivateFull => status := ActivateProgram();
      case DeactivateFull =>
        if |execObjs| > 0 { return Inval; }
        status := DeactivateProgram();
      case InvalidCmd => status := Inval;
    }

    method UnloadProgram() returns (status: Status)
      requires D.Rest(Cfg())
      modifies this
      ensures (Cfg(), status) == C.UnloadCall(env, old(Cfg()))
    {
      if C.Within(state, ActiveSuper) {
        if |execObjs| > 0 { return Error; }
        PostAndRun(Deactivate);
      }
      PostAndRun(Unload);
      return if C.LoadedOrCreated(state) then Success else Error;
    }

    method NotifyDeviceStateInfo(event: C.DeviceStateInfo) returns (status: Status)
      requires D.Rest(Cfg())
      modifies this
      ensures (Cfg(), status) == C.NotifyCall(env, dev, old(Cfg()), event)
    {
      status := Success;
      if event.qid != dev { return; }
      var vcId := C.INVALID_VCID;
      if qnn.Some? { vcId := qnn.value.vcId; }
      if event.kind == C.DownEvent {
        PostAndRun(DeviceDown);
      } else if event.kind == C.UpEvent {
        PostAndRun(DeviceUp);
      } else if event.kind == C.VcDownEvent && vcId != C.INVALID_VCID && vcId == event.vcId {
        PostAndRun(VcDown);
      } else if event.kind == C.VcUpEvent && vcId != C.INVALID_VCID && vcId == event.vcId {
        PostAndRun(VcUp);
      } else if event.kind == C.VcUpWaitTimerExpiry && vcId != C.INVALID_VCID && vcId == event.vcId {
        PostAndRun(DeviceDown);
      }
    }

    method RegisterExecObj(execObj: nat) returns (status: Status)
      modifies this
      ensures (Cfg(), status) == C.RegisterCall(old(Cfg()), execObj)
    {
      execObjs := execObjs + [execObj];
      return Success;
    }

    method UnregisterExecObj(execObj: nat) returns (status: Status)
      modifies this
      ensures (Cfg(), status) == C.UnregisterCall(old(Cfg()), execObj)
    {
      var i := C.Find(execObjs, execObj);
      if i < |execObjs| {
        execObjs := execObjs[..i] + execObjs[i + 1..];
        return Success;
      }
      return Inval;
    }
  }
}
