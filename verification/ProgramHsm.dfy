/**
 The hierarchical state machine of a program on one device: its states and their nesting, the handlers, the
 actions they invoke, and the event dispatcher (bubbling to the super-state, then exit to the least common
 ancestor and entry down to the target).

 Device I/O is an oracle: `Env` answers the k-th status query, image fetch, activation and teardown.
 */
module ProgramHsm {
  import opened Wrappers
  import opened StateHierarchy

  datatype State =
    | Top
    | CreatedSuper | Created | Loading | Unloading
    | LoadedSuper | Loaded | Activating | ActivateFailed
    | ActiveSuper | AcReady | AcDeactivating
    | ErrorSuper | DeviceError | LoadFailed

  datatype Signal =
    | Init | InitError
    | Load | Unload | Activate | Deactivate
    | LoadComplete | LoadFail | UnloadComplete
    | ActivateComplete | ActivateFail | DeactivateComplete
    | DeviceUp | DeviceDown | VcUp | VcDown

  /** A handler either passes the event on to its super-state or asks for a transition. */
  datatype Reaction = Super | Tran(target: State)

  /** An activated network and the virtual channel it runs on. */
  datatype Network = Network(naId: nat, vcId: nat)

  /** A device image; it may turn out to hold no network image. */
  datatype DeviceImage = DeviceImage(nnImage: Option<nat>)

  /** What activating a network returned: a status and a possibly null network. */
  datatype ActivateOutcome = ActivateOutcome(ok: bool, nn: Option<Network>)

  /** The outcomes of the device operations, indexed by how often each was invoked before. */
  datatype Env = Env(
    query: nat -> bool,
    fetch: nat -> Option<DeviceImage>,
    activate: nat -> ActivateOutcome,
    teardown: nat -> bool)

  /** The fields of the program device, and how often each device operation was invoked. */
  datatype Config = Config(
    state: State,
    signals: seq<Signal>,
    validated: bool,
    deviceImage: Option<DeviceImage>,
    nnImage: Option<nat>,
    qnn: Option<Network>,
    execObjs: seq<nat>,
    queries: nat,
    fetches: nat,
    activations: nat,
    teardowns: nat)

  // ------------------------------------------------------------------------------------------------
  // State hierarchy
  // ------------------------------------------------------------------------------------------------

  function Parent(s: State): State {
    match s
    case Top | CreatedSuper | ErrorSuper => Top
    case Created | Loading | Unloading | LoadedSuper => CreatedSuper
    case Loaded | Activating | ActivateFailed | ActiveSuper => LoadedSuper
    case AcReady | AcDeactivating => ActiveSuper
    case DeviceError | LoadFailed => ErrorSuper
  }

  function Depth(s: State): nat {
    match s
    case Top => 0
    case CreatedSuper | ErrorSuper => 1
    case Created | Loading | Unloading | LoadedSuper | DeviceError | LoadFailed => 2
    case Loaded | Activating | ActivateFailed | ActiveSuper => 3
    case AcReady | AcDeactivating => 4
  }

  const NESTING: Tree<State> := Tree(Top, Parent, Depth)

  lemma NestingIsWellFormed()
    ensures WellFormed(NESTING)
    ensures forall s {:trigger IsIn(NESTING, s, Top)} :: IsIn(NESTING, s, Top)
  {
    assert WellFormed(NESTING);
    forall s ensures IsIn(NESTING, s, Top) { TopContains(s); }
  }

  lemma {:induction false} TopContains(s: State)
    requires WellFormed(NESTING)
    ensures IsIn(NESTING, s, Top)
    decreases Depth(s)
  {
    if s != Top { TopContains(Parent(s)); }
  }

  // ------------------------------------------------------------------------------------------------
  // Actions
  // ------------------------------------------------------------------------------------------------

  function Push(c: Config, sig: Signal): Config {
    c.(signals := c.signals + [sig])
  }

  /** Queries the device unless an earlier query already validated it. */
  function ValidateAction(env: Env, c: Config): (Config, bool) {
    if c.validated then (c, true)
    else (c.(queries := c.queries + 1, validated := env.query(c.queries)), env.query(c.queries))
  }

  /** Fetches the device image unless one is held, and takes its network image. */
  function LoadAction(env: Env, c: Config): (Config, bool) {
    var c1 := if c.deviceImage.None?
              then c.(deviceImage := env.fetch(c.fetches), fetches := c.fetches + 1)
              else c;
    match c1.deviceImage
    case None => (c1, false)
    case Some(image) => (c1.(nnImage := image.nnImage), image.nnImage.Some?)
  }

  function UnloadAction(c: Config): Config {
    c.(deviceImage := None, nnImage := None)
  }

  function ActivateAction(env: Env, c: Config): (Config, bool) {
    var outcome := env.activate(c.activations);
    (c.(qnn := outcome.nn, activations := c.activations + 1), outcome.ok && outcome.nn.Some?)
  }

  function DeactivateAction(env: Env, c: Config): (Config, bool) {
    if c.qnn.None? then (c, true)
    else
      var ok := env.teardown(c.teardowns);
      (c.(qnn := if ok then None else c.qnn, teardowns := c.teardowns + 1), ok)
  }

  // ------------------------------------------------------------------------------------------------
  // Handlers
  // ------------------------------------------------------------------------------------------------

  /** What the handler of state `s` does on entry. */
  function Enter(env: Env, s: State, c: Config): Config {
    match s
    case CreatedSuper =>
      var (c1, ok) := ValidateAction(env, c);
      if ok then c1 else Push(c1, InitError)
    case Loading =>
      var (c1, ok) := LoadAction(env, c);
      Push(c1, if ok then LoadComplete else LoadFail)
    case Unloading => Push(UnloadAction(c), UnloadComplete)
    case Activating =>
      var (c1, ok) := ActivateAction(env, c);
      Push(c1, if ok then ActivateComplete else ActivateFail)
    case AcDeactivating =>
      var (c1, ok) := DeactivateAction(env, c);
      Push(c1, if ok then DeactivateComplete else DeviceDown)
    case DeviceError => DeactivateAction(env, c).0.(validated := false)
    case _ => c
  }

  /** What the handler of state `s` does with signal `sig`. */
  function React(env: Env, s: State, sig: Signal, c: Config): (Config, Reaction) {
    match (s, sig)
    case (CreatedSuper, InitError) => (Push(c, DeviceDown), Super)
    case (CreatedSuper, Activate) => (Push(Push(c, Load), Activate), Super)
    case (CreatedSuper, DeviceDown) => (c, Tran(DeviceError))
    case (Created, Load) => (c, Tran(Loading))
    case (Loading, LoadFail) => (c, Tran(LoadFailed))
    case (Loading, LoadComplete) => (c, Tran(Loaded))
    case (Unloading, UnloadComplete) => (c, Tran(Created))
    case (Loaded, Activate) => (c, Tran(Activating))
    case (Loaded, Unload) => (c, Tran(Unloading))
    case (Activating, ActivateFail) => (c, Tran(ActivateFailed))
    case (Activating, ActivateComplete) => (c, Tran(AcReady))
    case (ActivateFailed, Activate) => (c, Tran(Activating))
    case (ActiveSuper, Deactivate) => (c, Tran(AcDeactivating))
    case (AcDeactivating, DeactivateComplete) => (c, Tran(Loaded))
    case (DeviceError, DeviceUp) =>
      var (c1, ok) := ValidateAction(env, c);
      (c1, if ok then Tran(Created) else Super)
    case (LoadFailed, Load) => (c, Tran(Loading))
    case _ => (c, Super)
  }

  /** Only the dispatcher changes the current state. */
  lemma HandlersKeepState(env: Env, s: State, sig: Signal, c: Config)
    ensures React(env, s, sig, c).0.state == c.state
    ensures Enter(env, s, c).state == c.state
  {
  }

  // ------------------------------------------------------------------------------------------------
  // Dispatcher
  // ------------------------------------------------------------------------------------------------

  /** A transition remembers the state whose handler asked for it. */
  datatype Transition = Transition(source: State, target: State)

  /** Offers `sig` to `s` and then to its super-states until a handler asks for a transition. */
  function Bubble(env: Env, s: State, sig: Signal, c: Config): (Config, Option<Transition>)
    decreases Depth(s)
  {
    if s == Top then (c, None)
    else
      var (c1, r) := React(env, s, sig, c);
      match r
      case Tran(target) => (c1, Some(Transition(s, target)))
      case Super => Bubble(env, Parent(s), sig, c1)
  }

  /** The state that a transition does not leave; a self-transition leaves its own state too. */
  function Scope(tr: Transition): State
  {
    NestingIsWellFormed();
    if tr.source == tr.target then Parent(tr.target)
    else LeastCommonAncestor(NESTING, tr.source, tr.target)
  }

  /** The states a transition enters, outermost first. */
  function EntryPath(tr: Transition): seq<State>
  {
    NestingIsWellFormed();
    PathDown(NESTING, Scope(tr), tr.target)
  }

  function EnterAll(env: Env, path: seq<State>, c: Config): Config
    decreases |path|
  {
    if path == [] then c else EnterAll(env, path[1..], Enter(env, path[0], c))
  }

  /** The handling of one event: no handler of this machine does anything on exit. */
  function Dispatch(env: Env, sig: Signal, c: Config): Config {
    var (c1, tr) := Bubble(env, c.state, sig, c);
    match tr
    case None => c1
    case Some(t) => EnterAll(env, EntryPath(t), c1).(state := t.target)
  }

  /** One turn of the drain loop: take the oldest signal and dispatch it. */
  function Step(env: Env, c: Config): Config
    requires c.signals != []
  {
    Dispatch(env, c.signals[0], c.(signals := c.signals[1..]))
  }

  // ------------------------------------------------------------------------------------------------
  // Flattening: the hierarchical machine is the flat one given by this table
  // ------------------------------------------------------------------------------------------------

  predicate UnderCreated(s: State) {
    s.Created? || s.Loading? || s.Unloading? || UnderLoaded(s)
  }

  predicate UnderLoaded(s: State) {
    s.Loaded? || s.Activating? || s.ActivateFailed? || s.AcReady? || s.AcDeactivating?
  }

  /** The states that contain no other state; the machine rests only in these. */
  predicate Leaf(s: State) {
    UnderCreated(s) || s.DeviceError? || s.LoadFailed?
  }

  function Goto(env: Env, s: State, c: Config): Config {
    Enter(env, s, c).(state := s)
  }

  function FlatDispatch(env: Env, sig: Signal, c: Config): Config {
    match (c.state, sig)
    case (Created, Load) => Goto(env, Loading, c)
    case (LoadFailed, Load) => Goto(env, Loading, Enter(env, CreatedSuper, c))
    case (Loading, LoadFail) => Goto(env, LoadFailed, c)
    case (Loading, LoadComplete) => Goto(env, Loaded, c)
    case (Loaded, Unload) => Goto(env, Unloading, c)
    case (Unloading, UnloadComplete) => Goto(env, Created, c)
    case (Loaded, Activate) => Goto(env, Activating, c)
    case (ActivateFailed, Activate) => Goto(env, Activating, c)
    case (Activating, ActivateFail) => Goto(env, ActivateFailed, c)
    case (Activating, ActivateComplete) => Goto(env, AcReady, c)
    case (AcReady, Deactivate) => Goto(env, AcDeactivating, c)
    case (AcDeactivating, Deactivate) => Goto(env, AcDeactivating, c)
    case (AcDeactivating, DeactivateComplete) => Goto(env, Loaded, c)
    case (DeviceError, DeviceUp) =>
      var (c1, ok) := ValidateAction(env, c);
      if ok then Goto(env, Created, Enter(env, CreatedSuper, c1)) else c1
    case (s, InitError) => if UnderCreated(s) then Push(c, DeviceDown) else c
    case (s, Activate) => if UnderCreated(s) then Push(Push(c, Load), Activate) else c
    case (s, DeviceDown) => if UnderCreated(s) then Goto(env, DeviceError, c) else c
    case _ => c
  }

  /** A transition that some handler of this machine asks for. */
  ghost predicate Requested(tr: Transition) {
    exists env, c, sig :: React(env, tr.source, sig, c).1 == Tran(tr.target)
  }

  lemma {:induction false} BubbleRequests(env: Env, s: State, sig: Signal, c: Config)
    ensures var tr := Bubble(env, s, sig, c).1; tr.Some? ==> Requested(tr.value)
    decreases Depth(s)
  {
    hide React;
    if s != Top { BubbleRequests(env, Parent(s), sig, React(env, s, sig, c).0); }
  }

  /** Bubbling, exit and entry together do what the flat table says. */
  lemma DispatchIsFlat(env: Env, sig: Signal, c: Config)
    requires Leaf(c.state)
    ensures Dispatch(env, sig, c) == FlatDispatch(env, sig, c)
  {
    hide Bubble, Enter, EnterAll, EntryPath, Requested;
    BubbleFromLeaf(env, sig, c);
    BubbleRequests(env, c.state, sig, c);
    var (c1, tr) := Bubble(env, c.state, sig, c);
    if tr.Some? { EnteredIs(env, tr.value, c1); }
  }

  /** What a transition does: only coming back from error_super runs an entry action besides the target's own. */
  lemma EnteredIs(env: Env, tr: Transition, c: Config)
    requires Requested(tr)
    ensures EnterAll(env, EntryPath(tr), c).(state := tr.target) ==
            match tr
            case Transition(LoadFailed, Loading) | Transition(DeviceError, Created) =>
              Goto(env, tr.target, Enter(env, CreatedSuper, c))
            case _ => Goto(env, tr.target, c)
  {
    hide Enter, EntryPath, EnterAll;
    EntryPathIs(tr);
    EnterOneOrTwo(env, EntryPath(tr), c);
    SuperDoesNothing(env, c);
  }

  lemma SuperDoesNothing(env: Env, c: Config)
    ensures Enter(env, ErrorSuper, c) == Enter(env, LoadedSuper, c) == Enter(env, ActiveSuper, c) == c
  {
  }

  lemma EnterOneOrTwo(env: Env, path: seq<State>, c: Config)
    requires 1 <= |path| <= 2
    ensures |path| == 1 ==> EnterAll(env, path, c) == Enter(env, path[0], c)
    ensures |path| == 2 ==> EnterAll(env, path, c) == Enter(env, path[1], Enter(env, path[0], c))
  {
    if |path| == 2 {
      var rest := path[1..];
      assert EnterAll(env, rest, Enter(env, path[0], c))
          == EnterAll(env, rest[1..], Enter(env, rest[0], Enter(env, path[0], c)));
    }
  }

  /** Bubbling from a super-state offers the event to at most four handlers. */
  lemma BubbleFromSuper(env: Env, sig: Signal, c: Config)
    ensures Bubble(env, ErrorSuper, sig, c) == (c, None)
    ensures Bubble(env, CreatedSuper, sig, c) ==
            var (c1, r) := React(env, CreatedSuper, sig, c);
            (c1, if r.Tran? then Some(Transition(CreatedSuper, r.target)) else None)
    ensures Bubble(env, LoadedSuper, sig, c) == Bubble(env, CreatedSuper, sig, c)
    ensures Bubble(env, ActiveSuper, sig, c) ==
            if sig.Deactivate? then (c, Some(Transition(ActiveSuper, AcDeactivating)))
            else Bubble(env, CreatedSuper, sig, c)
  {
    assert forall d :: Bubble(env, Top, sig, d) == (d, None);
    assert Bubble(env, LoadedSuper, sig, c) == Bubble(env, CreatedSuper, sig, c);
  }

  lemma BubbleFromLeaf(env: Env, sig: Signal, c: Config)
    requires Leaf(c.state)
    ensures Bubble(env, c.state, sig, c) ==
            var (c1, r) := React(env, c.state, sig, c);
            if r.Tran? then (c1, Some(Transition(c.state, r.target)))
            else if !UnderCreated(c.state) then (c1, None)
            else if (c.state.AcReady? || c.state.AcDeactivating?) && sig.Deactivate?
            then (c1, Some(Transition(ActiveSuper, AcDeactivating)))
            else
              var (c2, r2) := React(env, CreatedSuper, sig, c1);
              (c2, if r2.Tran? then Some(Transition(CreatedSuper, r2.target)) else None)
  {
    hide React;
    var c1 := React(env, c.state, sig, c).0;
    BubbleFromSuper(env, sig, c1);
  }

  /** The entry path of every transition that a handler of this machine asks for. */
  lemma EntryPathIs(tr: Transition)
    requires Requested(tr)
    ensures EntryPath(tr) ==
            match tr
            case Transition(Loading, LoadFailed) | Transition(CreatedSuper, DeviceError) => [ErrorSuper, tr.target]
            case Transition(LoadFailed, Loading) | Transition(DeviceError, Created) => [CreatedSuper, tr.target]
            case Transition(Loading, Loaded) => [LoadedSuper, Loaded]
            case Transition(Activating, AcReady) => [ActiveSuper, AcReady]
            case _ => [tr.target]
  {
    NestingIsWellFormed();
    var (s, t) := (tr.source, tr.target);
    ShortPath(t);
    if s != t && Parent(s) == Parent(t) {
      assert LeastCommonAncestor(NESTING, s, t) == LeastCommonAncestor(NESTING, Parent(s), Parent(t));
    }
    match tr
    case Transition(CreatedSuper, DeviceError) =>
      assert LeastCommonAncestor(NESTING, s, t) == LeastCommonAncestor(NESTING, s, ErrorSuper);
      assert LeastCommonAncestor(NESTING, s, ErrorSuper) == Top;
    case Transition(Loading, LoadFailed) | Transition(LoadFailed, Loading) | Transition(DeviceError, Created) =>
      assert LeastCommonAncestor(NESTING, s, t) == LeastCommonAncestor(NESTING, Parent(s), Parent(t));
      assert LeastCommonAncestor(NESTING, Parent(s), Parent(t)) == Top;
    case Transition(Loading, Loaded) =>
      assert LeastCommonAncestor(NESTING, s, t) == LeastCommonAncestor(NESTING, s, LoadedSuper);
      assert LeastCommonAncestor(NESTING, s, LoadedSuper) == CreatedSuper;
    case Transition(Activating, AcReady) =>
      assert LeastCommonAncestor(NESTING, s, t) == LeastCommonAncestor(NESTING, s, ActiveSuper);
      assert LeastCommonAncestor(NESTING, s, ActiveSuper) == LoadedSuper;
    case Transition(AcDeactivating, Loaded) =>
      assert LeastCommonAncestor(NESTING, s, t) == LeastCommonAncestor(NESTING, ActiveSuper, t);
      assert LeastCommonAncestor(NESTING, ActiveSuper, t) == LoadedSuper;
    case Transition(Loaded, Unloading) =>
      assert LeastCommonAncestor(NESTING, s, t) == LeastCommonAncestor(NESTING, LoadedSuper, t);
      assert LeastCommonAncestor(NESTING, LoadedSuper, t) == CreatedSuper;
    case Transition(ActiveSuper, AcDeactivating) =>
      assert LeastCommonAncestor(NESTING, s, t) == LeastCommonAncestor(NESTING, s, ActiveSuper);
    case _ =>
  }

  lemma ShortPath(s: State)
    requires WellFormed(NESTING) && s != Top
    ensures PathDown(NESTING, Parent(s), s) == [s]
    ensures Parent(s) != Top ==> PathDown(NESTING, Parent(Parent(s)), s) == [Parent(s), s]
  {
    assert PathDown(NESTING, Parent(s), Parent(s)) == [];
    assert PathDown(NESTING, Parent(Parent(s)), Parent(Parent(s))) == [];
    assert s != Parent(Parent(s));
  }
}
