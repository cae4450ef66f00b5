/**
 When an activated network gets lost. The activate action stores the network it is handed without looking at what it
 held, and a teardown that fails keeps what was held; both together lose a network.
 */
module ProgramLosses {
  import opened Wrappers
  import opened ProgramHsm
  import opened ProgramDrain
  import opened ProgramLifecycle
  import opened ProgramCalls

  /** The networks that the first `n` activations handed out. */
  function Made(env: Env, n: nat): nat {
    if n == 0 then 0 else Made(env, n - 1) + if env.activate(n - 1).nn.Some? then 1 else 0
  }

  /** The networks that the first `n` teardowns ended. */
  function Ended(env: Env, n: nat): nat {
    if n == 0 then 0 else Ended(env, n - 1) + if env.teardown(n - 1) then 1 else 0
  }

  /** The networks handed out that were neither torn down nor are held. */
  function Lost(env: Env, c: Config): int {
    Made(env, c.activations) - Ended(env, c.teardowns) - if c.qnn.Some? then 1 else 0
  }

  /** The ACTIVATE reaches the activate action, and a network is held at that time. */
  predicate Overwrites(c: Config, sig: Signal) {
    sig == Activate && c.signals == [] && c.state in {Created, Loaded, ActivateFailed} && c.qnn.Some?
  }

  /** A network is held outside of ac_ready only after a failure: of the last teardown or of the last activation. */
  predicate HeldByFailure(env: Env, c: Config) {
    c.qnn.Some? && c.state != AcReady ==>
      || (c.teardowns > 0 && !env.teardown(c.teardowns - 1))
      || (c.activations > 0 && !env.activate(c.activations - 1).ok && env.activate(c.activations - 1).nn == c.qnn)
  }

  // ------------------------------------------------------------------------------------------------
  // One signal
  // ------------------------------------------------------------------------------------------------

  /** The two configurations agree on the network and on the counts of activations and teardowns. */
  predicate SameNetwork(c: Config, d: Config) {
    c.qnn == d.qnn && c.activations == d.activations && c.teardowns == d.teardowns
  }

  lemma {:induction false} LoadingKeepsNetwork(env: Env, c: Config)
    requires LoadsEventually(env, c)
    ensures SameNetwork(LoadedAtLast(env, c), c)
    decreases FailuresBeforeLoad(env, c)
  {
    hide LoadsEventually, FailuresBeforeLoad;
    LoadActionFacts(env, c);
    var c1 := LoadedOnce(env, c);
    SameFetches(env, LoadAction(env, c).0, c1);
    if c1.state != Loaded { LoadingKeepsNetwork(env, c1); }
  }

  lemma FailureKeeps(env: Env, c: Config)
    ensures Lost(env, Failed(env, c)) == Lost(env, c) && HeldByFailure(env, Failed(env, c))
  {
  }

  lemma TeardownKeeps(env: Env, c: Config)
    ensures var (c1, ok) := DeactivateAction(env, c);
            Lost(env, c1) == Lost(env, c) && (ok ==> c1.qnn.None?)
  {
  }

  lemma ActivationLoses(env: Env, c: Config)
    ensures Lost(env, Activated(env, c)) == Lost(env, c) + (if c.qnn.Some? then 1 else 0)
    ensures HeldByFailure(env, Activated(env, c))
  {
  }

  lemma SameNetworkKeeps(env: Env, c: Config, d: Config)
    requires SameNetwork(c, d)
    ensures Lost(env, d) == Lost(env, c)
    ensures HeldByFailure(env, c) && (c.state == AcReady ==> d.state == AcReady) ==> HeldByFailure(env, d)
  {
  }

  lemma LoadKeepsNetwork(env: Env, c: Config)
    ensures SameNetwork(LoadAction(env, c).0, c) && SameNetwork(LoadedOnce(env, c), c)
  {
  }

  /** A signal loses a network exactly when it is an ACTIVATE that overwrites one. */
  lemma PostLosesIff(env: Env, c: Config, sig: Signal)
    requires Rest(c) && Postable(c, sig) && !Diverges(env, Push(c, sig)) && HeldByFailure(env, c)
    ensures var c1 := Post(env, c, sig);
            Lost(env, c1) == Lost(env, c) + (if Overwrites(c, sig) then 1 else 0) && HeldByFailure(env, c1)
  {
    if InitErrorPending(c) {
      InitErrorLosesNone(env, c, sig);
    } else if sig == Activate {
      ActivateLosesIff(env, c);
    } else if sig == Deactivate && c.state == AcReady {
      DeactivateLosesNone(env, c);
    } else {
      OthersLoseNone(env, c, sig);
    }
  }

  lemma InitErrorLosesNone(env: Env, c: Config, sig: Signal)
    requires Rest(c) && InitErrorPending(c) && !Diverges(env, Push(c, sig))
    ensures Lost(env, Post(env, c, sig)) == Lost(env, c) && HeldByFailure(env, Post(env, c, sig))
  {
    hide LoadAction, Failed, Lost, HeldByFailure, Rest, SameNetwork;
    var d := if sig == Load then LoadAction(env, c).0 else c;
    FailureKeeps(env, d);
    if sig == Load {
      LoadKeepsNetwork(env, c);
      SameNetworkKeeps(env, d, c);
    }
  }

  lemma ActivateLosesIff(env: Env, c: Config)
    requires Rest(c) && !InitErrorPending(c) && c.state != AcReady && !Diverges(env, Push(c, Activate))
    requires HeldByFailure(env, c)
    ensures var c1 := Post(env, c, Activate);
            Lost(env, c1) == Lost(env, c) + (if Overwrites(c, Activate) then 1 else 0) && HeldByFailure(env, c1)
  {
    hide LoadsEventually, FailuresBeforeLoad, LoadedAtLast, Activated, Lost, HeldByFailure, Resources;
    if c.state == Created {
      SameFetches(env, c, Push(c, Activate));
      LoadingKeepsNetwork(env, c);
      ActivationLoses(env, LoadedAtLast(env, c));
      SameNetworkKeeps(env, LoadedAtLast(env, c), c);
    } else if c.state == Loaded || c.state == ActivateFailed {
      ActivationLoses(env, c);
    }
  }

  lemma DeactivateLosesNone(env: Env, c: Config)
    requires Rest(c) && c.state == AcReady && !Diverges(env, Push(c, Deactivate))
    ensures Lost(env, Post(env, c, Deactivate)) == Lost(env, c) && HeldByFailure(env, Post(env, c, Deactivate))
  {
    hide Lost, Failed, Rest, DeactivateAction;
    var (c1, ok) := DeactivateAction(env, c);
    TeardownKeeps(env, c);
    if ok { SameNetworkKeeps(env, c1, At(c1, Loaded, [])); } else { FailureKeeps(env, c1); }
  }

  lemma OthersLoseNone(env: Env, c: Config, sig: Signal)
    requires Rest(c) && !InitErrorPending(c) && External(sig) && !Diverges(env, Push(c, sig)) && HeldByFailure(env, c)
    requires sig != Activate && !(sig == Deactivate && c.state == AcReady)
    ensures Lost(env, Post(env, c, sig)) == Lost(env, c) && HeldByFailure(env, Post(env, c, sig))
  {
    hide LoadedOnce, Failed, Lost, HeldByFailure, Resources;
    LoadKeepsNetwork(env, c);
    if sig == DeviceDown && UnderCreated(c.state) {
      FailureKeeps(env, c);
    } else {
      SameNetworkKeeps(env, c, Post(env, c, sig));
    }
  }

  // ------------------------------------------------------------------------------------------------
  // Calls and runs
  // ------------------------------------------------------------------------------------------------

  lemma DrainedLosesIff(env: Env, c: Config, sig: Signal)
    requires Rest(c) && Postable(c, sig) && !Hangs(env, c, sig) && HeldByFailure(env, c)
    ensures var c1 := Drained(env, c, sig);
            Lost(env, c1) == Lost(env, c) + (if Overwrites(c, sig) then 1 else 0) && HeldByFailure(env, c1)
  {
    hide Post, Drained, Lost, HeldByFailure, Overwrites;
    DrainedIsPost(env, c, sig);
    PostLosesIff(env, c, sig);
  }

  predicate OverwritesBy(c: Config, op: Op) {
    op == OpCommand(ActivateFull) && Overwrites(c, Activate)
  }

  /** A call loses a network exactly when it is an activation that finds one held, and then it loses that one. */
  lemma CallLosesIff(env: Env, dev: nat, c: Config, op: Op)
    requires Rest(c) && Callable(env, c, op) && HeldByFailure(env, c)
    ensures var c1 := Call(env, dev, c, op).0;
            Lost(env, c1) == Lost(env, c) + (if OverwritesBy(c, op) then 1 else 0) && HeldByFailure(env, c1)
  {
    hide Resources, Within, ProgramStateOf, Drained, Made, Ended;
    LeafLiesIn(c.state, AcReady);
    match op
    case OpLoad => DrainedLosesIff(env, c, Load);
    case OpUnload =>
      var c1 := c;
      if Within(c.state, ActiveSuper) {
        DrainedLosesIff(env, c, Deactivate);
        c1 := Drained(env, c, Deactivate);
      }
      DrainedLosesIff(env, c1, Unload);
    case OpCommand(cmd) =>
      if cmd == DeactivateFull { DrainedLosesIff(env, c, Deactivate); }
      else if cmd == ActivateFull && !Within(c.state, AcReady) { DrainedLosesIff(env, c, Activate); }
    case OpNotify(event) =>
      var sig := SignalOf(dev, c, event);
      if sig.Some? { DrainedLosesIff(env, c, sig.value); }
    case _ =>
  }

  /** How many calls of a run activate while a network is held. */
  ghost function Overwritten(env: Env, dev: nat, c: Config, ops: seq<Op>): nat
    requires Rest(c)
    decreases |ops|
  {
    if ops == [] || !Callable(env, c, ops[0]) then 0
    else
      (if OverwritesBy(c, ops[0]) then 1 else 0) + Overwritten(env, dev, Call(env, dev, c, ops[0]).0, ops[1..])
  }

  /** Conservation over runs: every network handed out is held, was torn down, or was overwritten by an activation. */
  lemma {:induction false} NetworksAreAccountedFor(env: Env, dev: nat, c: Config, ops: seq<Op>)
    requires Rest(c) && HeldByFailure(env, c)
    ensures var r := Run(env, dev, c, ops);
            r.Some? ==>
              HeldByFailure(env, r.value) && Lost(env, r.value) == Lost(env, c) + Overwritten(env, dev, c, ops)
    decreases |ops|
  {
    hide Callable, Call, Lost, HeldByFailure, Rest, OverwritesBy;
    if ops != [] && Callable(env, c, ops[0]) {
      CallLosesIff(env, dev, c, ops[0]);
      NetworksAreAccountedFor(env, dev, Call(env, dev, c, ops[0]).0, ops[1..]);
    }
  }

  /** No teardown fails, and no failing activation hands out a network. */
  ghost predicate Orderly(env: Env) {
    && (forall k :: env.teardown(k))
    && forall k {:trigger env.activate(k)} :: env.activate(k).nn.Some? ==> env.activate(k).ok
  }

  /** From construction on, an orderly device loses no network, whatever is called and whatever events arrive. */
  lemma {:induction false} OrderlyLosesNone(env: Env, dev: nat, execObjs: seq<nat>, ops: seq<Op>)
    requires Orderly(env)
    ensures var r := Run(env, dev, Initial(env, execObjs), ops);
            r.Some? ==> Lost(env, r.value) == 0 && (r.value.qnn.Some? <==> r.value.state == AcReady)
  {
    var c := Initial(env, execObjs);
    hide Callable, Call, Initial, Overwritten;
    assert c.qnn.None? && c.activations == 0 && c.teardowns == 0 by { InitialHoldsNothing(env, execObjs); }
    NetworksAreAccountedFor(env, dev, c, ops);
    NothingOverwritten(env, dev, c, ops);
  }

  lemma InitialHoldsNothing(env: Env, execObjs: seq<nat>)
    ensures var c := Initial(env, execObjs); c.qnn.None? && c.activations == 0 && c.teardowns == 0
  {
  }

  lemma {:induction false} NothingOverwritten(env: Env, dev: nat, c: Config, ops: seq<Op>)
    requires Rest(c) && HeldByFailure(env, c) && Orderly(env)
    ensures Overwritten(env, dev, c, ops) == 0
    decreases |ops|
  {
    hide Callable, Call, Rest, Lost;
    if ops != [] && Callable(env, c, ops[0]) {
      CallLosesIff(env, dev, c, ops[0]);
      NothingOverwritten(env, dev, Call(env, dev, c, ops[0]).0, ops[1..]);
    }
  }

  lemma RunOfThree(env: Env, dev: nat, c: Config, x: Op, y: Op, z: Op)
    requires Rest(c) && Callable(env, c, x)
    requires var c1 := Call(env, dev, c, x).0; Callable(env, c1, y) && Callable(env, Call(env, dev, c1, y).0, z)
    ensures var c2 := Call(env, dev, Call(env, dev, c, x).0, y).0;
            Run(env, dev, c, [x, y, z]) == Some(Call(env, dev, c2, z).0)
  {
    hide Callable, Call, Rest;
    var c1 := Call(env, dev, c, x).0;
    var c2 := Call(env, dev, c1, y).0;
    var c3 := Call(env, dev, c2, z).0;
    assert [x, y, z][1..] == [y, z] && [y, z][1..] == [z] && [z][1..] == [];
    assert Run(env, dev, c3, []) == Some(c3);
    assert Run(env, dev, c2, [z]) == Some(c3);
    assert Run(env, dev, c1, [y, z]) == Some(c3);
  }

  lemma FailsHolding(env: Env, dev: nat, c: Config)
    requires Rest(c) && c.state == AcReady && !env.teardown(c.teardowns)
    ensures Call(env, dev, c, OpNotify(DeviceStateInfo(dev, 0, DownEvent))).0
            == At(c, DeviceError, []).(teardowns := c.teardowns + 1, validated := false)
  {
    ReadyHolds(c);
    hide Resources, Drained;
    DrainedIsPost(env, c, DeviceDown);
  }

  lemma Recovers(env: Env, dev: nat, c: Config)
    requires Rest(c) && c.state == DeviceError && env.query(c.queries)
    ensures Call(env, dev, c, OpNotify(DeviceStateInfo(dev, 0, UpEvent))).0
            == At(c, Created, []).(queries := c.queries + 1, validated := true)
  {
    hide Resources, Drained;
    DeviceErrorRecovers(env, c);
  }

  /** A ready program whose device fails, refuses the teardown, recovers, and is activated again: a network is lost. */
  lemma FailedTeardownLoses(env: Env, dev: nat, c: Config)
    requires Rest(c) && c.state == AcReady && HeldByFailure(env, c) && LoadsEventually(env, c)
    requires !env.teardown(c.teardowns) && env.query(c.queries)
    ensures var down, up := DeviceStateInfo(dev, 0, DownEvent), DeviceStateInfo(dev, 0, UpEvent);
            var r := Run(env, dev, c, [OpNotify(down), OpNotify(up), OpCommand(ActivateFull)]);
            r.Some? && Lost(env, r.value) == Lost(env, c) + 1
  {
    hide Call, Made, Ended, LoadsEventually, FailuresBeforeLoad, Lost, HeldByFailure, Resources;
    var down, up := OpNotify(DeviceStateInfo(dev, 0, DownEvent)), OpNotify(DeviceStateInfo(dev, 0, UpEvent));
    var activate := OpCommand(ActivateFull);
    var c1 := Call(env, dev, c, down).0;
    var c2 := Call(env, dev, c1, up).0;
    FailsHolding(env, dev, c);
    Recovers(env, dev, c1);
    ReadyHolds(c);
    SameFetches(env, c, c2);
    RunOfThree(env, dev, c, down, up, activate);
    CallLosesIff(env, dev, c, down);
    CallLosesIff(env, dev, c1, up);
    CallLosesIff(env, dev, c2, activate);
  }

  lemma ReadyHolds(c: Config)
    requires Rest(c) && c.state == AcReady
    ensures c.qnn.Some? && c.validated
  {
  }
}
