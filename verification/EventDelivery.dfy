/**
 Event delivery across threads: many producers push device events into the queues of their contexts and notify one
 worker, which runs the notified contexts. Every mutex operation and every access to shared data is a step of its own;
 a run is any interleaving of the steps.
 */
module EventDelivery {
  import opened Wrappers

  type Event = nat

  /** Who holds a mutex. */
  datatype Owner = Free | Producer(p: nat) | Worker

  /** A client of a context and its priority. */
  datatype Client = Client(prio: nat, id: nat)

  /** A client was told about an event. */
  datatype Delivery = Delivery(client: Client, event: Event)

  /** Where a producer is in `notifyDeviceEvent`. */
  datatype ProducerPC =
    | Outside
    | LockContext(ctx: nat, event: Event)
    | PushEvent(ctx: nat, event: Event)
    | UnlockContext(ctx: nat)
    | LockWork(ctx: nat)
    | PushWork(ctx: nat)
    | SetReady(ctx: nat)
    | UnlockWork(ctx: nat)

  /** Where the worker is: in its own loop, or in the `run` of a context. */
  datatype WorkerPC =
    | Lock
    | TestReady
    | Waiting
    | TestWork
    | UnlockFor(ctx: nat)
    | RunLock(ctx: nat)
    | RunTest(ctx: nat)
    | RunFront(ctx: nat)
    | RunUnlock(ctx: nat, event: Event)
    | RunNotify(ctx: nat, event: Event)
    | RunRelock(ctx: nat, event: Event)
    | RunPop(ctx: nat, event: Event)
    | RunEnd(ctx: nat)
    | Relock
    | ClearReady

  datatype State = State(
    queues: seq<seq<Event>>, contextLocks: seq<Owner>, workQueue: seq<nat>, ready: bool, workLock: Owner,
    producers: seq<ProducerPC>, worker: WorkerPC, clients: seq<seq<Client>>,
    // What happened so far, per context: events pushed, events notified, and calls made.
    pushed: seq<seq<Event>>, notified: seq<seq<Event>>, log: seq<seq<Delivery>>)

  datatype Action =
    | Begin(p: nat, ctx: nat, event: Event)
    | Produce(p: nat)
    | Work
    | Register(ctx: nat, client: Client)

  /** A context's client list with a new client in front of the first one of no higher priority. */
  function Insert(cs: seq<Client>, c: Client): seq<Client> {
    if cs == [] || c.prio >= cs[0].prio then [c] + cs else [cs[0]] + Insert(cs[1..], c)
  }

  function Deliveries(cs: seq<Client>, e: Event): (ds: seq<Delivery>)
    ensures |ds| == |cs| && forall i :: 0 <= i < |cs| ==> ds[i] == Delivery(cs[i], e)
  {
    seq(|cs|, i requires 0 <= i < |cs| => Delivery(cs[i], e))
  }

  predicate Shaped(s: State) {
    |s.contextLocks| == |s.clients| == |s.pushed| == |s.notified| == |s.log| == |s.queues|
  }

  // ------------------------------------------------------------------------------------------------
  // Steps
  // ------------------------------------------------------------------------------------------------

  /** The next step of a producer; None while it has to wait for a mutex or is outside. */
  function ProducerStep(s: State, p: nat): Option<State>
    requires Shaped(s) && p < |s.producers|
  {
    match s.producers[p]
    case Outside => None
    case LockContext(c, e) =>
      if c < |s.queues| && s.contextLocks[c] == Free then
        Some(s.(contextLocks := s.contextLocks[c := Producer(p)], producers := s.producers[p := PushEvent(c, e)]))
      else None
    case PushEvent(c, e) =>
      if c < |s.queues| then
        Some(s.(queues := s.queues[c := s.queues[c] + [e]], pushed := s.pushed[c := s.pushed[c] + [e]],
                producers := s.producers[p := UnlockContext(c)]))
      else None
    case UnlockContext(c) =>
      if c < |s.queues| then
        Some(s.(contextLocks := s.contextLocks[c := Free], producers := s.producers[p := LockWork(c)]))
      else None
    case LockWork(c) =>
      if s.workLock == Free then Some(s.(workLock := Producer(p), producers := s.producers[p := PushWork(c)])) else None
    case PushWork(c) =>
      Some(s.(workQueue := s.workQueue + [c], producers := s.producers[p := SetReady(c)]))
    case SetReady(c) =>
      Some(s.(ready := true, producers := s.producers[p := UnlockWork(c)]))
    case UnlockWork(_) =>
      Some(s.(workLock := Free, producers := s.producers[p := Outside]))
  }

  /** The next step of the worker; None while it has to wait for a mutex. Waiting may end at any time. */
  function WorkerStep(s: State): Option<State>
    requires Shaped(s)
  {
    match s.worker
    case Lock => if s.workLock == Free then Some(s.(workLock := Worker, worker := TestReady)) else None
    case Waiting => if s.workLock == Free then Some(s.(workLock := Worker, worker := TestReady)) else None
    case TestReady =>
      if s.ready then Some(s.(worker := TestWork)) else Some(s.(workLock := Free, worker := Waiting))
    case TestWork =>
      if s.workQueue == [] then Some(s.(worker := ClearReady))
      else Some(s.(workQueue := s.workQueue[1..], worker := UnlockFor(s.workQueue[0])))
    case UnlockFor(c) => Some(s.(workLock := Free, worker := RunLock(c)))
    case RunLock(c) =>
      if c < |s.queues| && s.contextLocks[c] == Free then
        Some(s.(contextLocks := s.contextLocks[c := Worker], worker := RunTest(c)))
      else None
    case RunTest(c) =>
      if c >= |s.queues| then None
      else Some(s.(worker := if s.queues[c] == [] then RunEnd(c) else RunFront(c)))
    case RunFront(c) =>
      if c >= |s.queues| || s.queues[c] == [] then None
      else Some(s.(worker := RunUnlock(c, s.queues[c][0])))
    case RunUnlock(c, e) =>
      if c >= |s.queues| then None
      else Some(s.(contextLocks := s.contextLocks[c := Free], worker := RunNotify(c, e)))
    case RunNotify(c, e) =>
      if c >= |s.queues| then None
      else Some(s.(notified := s.notified[c := s.notified[c] + [e]],
                   log := s.log[c := s.log[c] + Deliveries(s.clients[c], e)], worker := RunRelock(c, e)))
    case RunRelock(c, e) =>
      if c < |s.queues| && s.contextLocks[c] == Free then
        Some(s.(contextLocks := s.contextLocks[c := Worker], worker := RunPop(c, e)))
      else None
    case RunPop(c, _) =>
      if c >= |s.queues| || s.queues[c] == [] then None
      else Some(s.(queues := s.queues[c := s.queues[c][1..]], worker := RunTest(c)))
    case RunEnd(c) =>
      if c >= |s.queues| then None
      else Some(s.(contextLocks := s.contextLocks[c := Free], worker := Relock))
    case Relock => if s.workLock == Free then Some(s.(workLock := Worker, worker := TestWork)) else None
    case ClearReady => Some(s.(ready := false, workLock := Free, worker := Lock))
  }

  /** One step of a run; None where it is not possible. */
  function Step(s: State, a: Action): Option<State>
    requires Shaped(s)
  {
    match a
    case Begin(p, c, e) =>
      if p < |s.producers| && s.producers[p] == Outside && c < |s.queues| then
        Some(s.(producers := s.producers[p := LockContext(c, e)]))
      else None
    case Produce(p) => if p < |s.producers| then ProducerStep(s, p) else None
    case Work => WorkerStep(s)
    case Register(c, client) =>
      if c < |s.queues| then Some(s.(clients := s.clients[c := Insert(s.clients[c], client)])) else None
  }

  /** The start: nothing queued, nobody registered, all mutexes free. */
  function Start(contexts: nat, producers: nat): (s: State)
    ensures Shaped(s)
  {
    State(seq(contexts, _ => []), seq(contexts, _ => Free), [], false, Free, seq(producers, _ => Outside), Lock,
          seq(contexts, _ => []), seq(contexts, _ => []), seq(contexts, _ => []), seq(contexts, _ => []))
  }

  // ------------------------------------------------------------------------------------------------
  // Invariant
  // ------------------------------------------------------------------------------------------------

  /** The producer holds the mutex of this context. */
  predicate HoldsContext(pc: ProducerPC, c: nat) { (pc.PushEvent? || pc.UnlockContext?) && pc.ctx == c }

  predicate HoldsWork(pc: ProducerPC) { pc.PushWork? || pc.SetReady? || pc.UnlockWork? }

  /** The producer has pushed an event of this context and not yet queued the notification. */
  predicate WillNotify(pc: ProducerPC, c: nat) { (pc.UnlockContext? || pc.LockWork? || pc.PushWork?) && pc.ctx == c }

  predicate WorkerHoldsContext(pc: WorkerPC, c: nat) {
    (pc.RunTest? || pc.RunFront? || pc.RunUnlock? || pc.RunPop? || pc.RunEnd?) && pc.ctx == c
  }

  predicate WorkerHoldsWork(pc: WorkerPC) { pc.TestReady? || pc.TestWork? || pc.UnlockFor? || pc.ClearReady? }

  /** The worker will look at this context's queue again before it leaves the context. */
  predicate WillRun(pc: WorkerPC, c: nat) {
    (pc.UnlockFor? || pc.RunLock? || pc.RunTest? || pc.RunFront? || pc.RunUnlock? || pc.RunNotify? || pc.RunRelock?
     || pc.RunPop?) && pc.ctx == c
  }

  /** The worker has taken the front event of this context and not yet popped it. */
  predicate HoldsEvent(pc: WorkerPC, c: nat) {
    (pc.RunUnlock? || pc.RunNotify? || pc.RunRelock? || pc.RunPop?) && pc.ctx == c
  }

  /** The worker has notified the event it holds and not yet popped it. */
  predicate Notified(pc: WorkerPC, c: nat) { (pc.RunRelock? || pc.RunPop?) && pc.ctx == c }

  function ContextOfWorker(pc: WorkerPC): Option<nat> {
    match pc
    case Lock => None
    case TestReady => None
    case Waiting => None
    case TestWork => None
    case Relock => None
    case ClearReady => None
    case UnlockFor(c) => Some(c)
    case RunLock(c) => Some(c)
    case RunTest(c) => Some(c)
    case RunFront(c) => Some(c)
    case RunUnlock(c, _) => Some(c)
    case RunNotify(c, _) => Some(c)
    case RunRelock(c, _) => Some(c)
    case RunPop(c, _) => Some(c)
    case RunEnd(c) => Some(c)
  }

  /** A context's mutex is held by exactly the one who is between locking and unlocking it. */
  predicate ContextLockKept(s: State, c: nat)
    requires Shaped(s) && c < |s.queues|
  {
    && (forall p :: 0 <= p < |s.producers| ==> (HoldsContext(s.producers[p], c) <==> s.contextLocks[c] == Producer(p)))
    && (WorkerHoldsContext(s.worker, c) <==> s.contextLocks[c] == Worker)
    && (s.contextLocks[c].Producer? ==> s.contextLocks[c].p < |s.producers|)
  }

  predicate WorkLockKept(s: State) {
    && (forall p :: 0 <= p < |s.producers| ==> (HoldsWork(s.producers[p]) <==> s.workLock == Producer(p)))
    && (WorkerHoldsWork(s.worker) <==> s.workLock == Worker)
    && (s.workLock.Producer? ==> s.workLock.p < |s.producers|)
  }

  predicate LocksKept(s: State)
    requires Shaped(s)
  {
    WorkLockKept(s) && forall c :: 0 <= c < |s.queues| ==> ContextLockKept(s, c)
  }

  /** Everybody talks about existing contexts. */
  predicate InRange(s: State)
    requires Shaped(s)
  {
    && (forall p :: 0 <= p < |s.producers| ==> s.producers[p].Outside? || s.producers[p].ctx < |s.queues|)
    && (forall k :: 0 <= k < |s.workQueue| ==> s.workQueue[k] < |s.queues|)
    && (ContextOfWorker(s.worker).Some? ==> ContextOfWorker(s.worker).value < |s.queues|)
  }

  /** A context with events is being run, is in the work queue, or is about to be put there. */
  predicate Attended(s: State, c: nat)
  {
    c in s.workQueue || WillRun(s.worker, c) || exists p :: 0 <= p < |s.producers| && WillNotify(s.producers[p], c)
  }

  predicate ContextAttended(s: State, c: nat)
    requires Shaped(s) && c < |s.queues|
  {
    && (s.queues[c] != [] ==> Attended(s, c))
    && (s.worker == RunEnd(c) ==> s.queues[c] == [])
  }

  /** While `ready` is false the work queue is empty, but for the producer that is about to set it. */
  predicate WorkAttended(s: State) {
    && (s.worker.ClearReady? ==> s.workQueue == [])
    && (!s.ready && s.workQueue != [] ==> s.workLock.Producer? && s.workLock.p < |s.producers|
                                          && s.producers[s.workLock.p].SetReady?)
  }

  predicate NoneForgotten(s: State)
    requires Shaped(s)
  {
    WorkAttended(s) && forall c :: 0 <= c < |s.queues| ==> ContextAttended(s, c)
  }

  /** The events of a context that are not yet notified. */
  function Unnotified(s: State, c: nat): seq<Event>
    requires Shaped(s) && c < |s.queues|
  {
    if Notified(s.worker, c) && s.queues[c] != [] then s.queues[c][1..] else s.queues[c]
  }

  /** Notified and waiting events together are the pushed ones, in order; the worker holds the front event. */
  predicate OrderKept(s: State, c: nat)
    requires Shaped(s) && c < |s.queues|
  {
    && s.pushed[c] == s.notified[c] + Unnotified(s, c)
    && (WorkerHoldsFront(s.worker, c) ==> s.queues[c] != [])
    && (HoldsEvent(s.worker, c) ==> s.queues[c] != [] && s.queues[c][0] == s.worker.event)
  }

  predicate Ordered(s: State)
    requires Shaped(s)
  {
    forall c :: 0 <= c < |s.queues| ==> OrderKept(s, c)
  }

  predicate WorkerHoldsFront(pc: WorkerPC, c: nat) { pc.RunFront? && pc.ctx == c }

  predicate Inv(s: State) {
    Shaped(s) && LocksKept(s) && InRange(s) && NoneForgotten(s) && Ordered(s)
  }

  // ------------------------------------------------------------------------------------------------
  // Every step keeps the invariant
  // ------------------------------------------------------------------------------------------------

  /** A producer's step takes a free context mutex, gives its own back, or leaves the mutex alone. */
  lemma ProducerLockStep(s: State, p: nat, c: nat)
    requires Shaped(s) && p < |s.producers| && ProducerStep(s, p).Some? && c < |s.queues|
    ensures var s' := ProducerStep(s, p).value;
            var before, after := HoldsContext(s.producers[p], c), HoldsContext(s'.producers[p], c);
            && Shaped(s') && |s'.queues| == |s.queues| && s'.worker == s.worker
            && s'.producers == s.producers[p := s'.producers[p]]
            && (!before && after ==> s.contextLocks[c] == Free && s'.contextLocks[c] == Producer(p))
            && (before && !after ==> s'.contextLocks[c] == Free)
            && (before == after ==> s'.contextLocks[c] == s.contextLocks[c])
  {
  }

  lemma ProducerKeepsContextLock(s: State, p: nat, c: nat)
    requires Inv(s) && p < |s.producers| && ProducerStep(s, p).Some? && c < |s.queues|
    ensures ContextLockKept(ProducerStep(s, p).value, c)
  {
    assert ContextLockKept(s, c);
    hide Inv, LocksKept, NoneForgotten, Ordered, WorkLockKept, ProducerStep, HoldsContext;
    ProducerLockStep(s, p, c);
  }

  /** A producer's step takes the free work mutex, gives its own back, or leaves the mutex alone. */
  lemma ProducerWorkLockStep(s: State, p: nat)
    requires Shaped(s) && p < |s.producers| && ProducerStep(s, p).Some?
    ensures var s' := ProducerStep(s, p).value;
            var before, after := HoldsWork(s.producers[p]), HoldsWork(s'.producers[p]);
            && s'.worker == s.worker && s'.producers == s.producers[p := s'.producers[p]]
            && (!before && after ==> s.workLock == Free && s'.workLock == Producer(p))
            && (before && !after ==> s'.workLock == Free)
            && (before == after ==> s'.workLock == s.workLock)
  {
  }

  lemma ProducerStaysInRange(s: State, p: nat)
    requires Shaped(s) && p < |s.producers| && ProducerStep(s, p).Some? && InRange(s)
    ensures InRange(ProducerStep(s, p).value)
  {
  }

  lemma ProducerKeepsWorkLock(s: State, p: nat)
    requires Inv(s) && p < |s.producers| && ProducerStep(s, p).Some?
    ensures WorkLockKept(ProducerStep(s, p).value)
  {
    assert WorkLockKept(s);
    hide Inv, LocksKept, NoneForgotten, Ordered, ContextLockKept, ProducerStep, HoldsWork, InRange;
    ProducerWorkLockStep(s, p);
  }

  lemma ProducerKeepsOrder(s: State, p: nat, c: nat)
    requires Inv(s) && p < |s.producers| && ProducerStep(s, p).Some? && c < |s.queues|
    ensures OrderKept(ProducerStep(s, p).value, c)
  {
    assert OrderKept(s, c);
    hide Inv, LocksKept, NoneForgotten, Ordered, WorkLockKept, ContextLockKept, WorkAttended, ContextAttended;
    if s.producers[p].PushEvent? && s.producers[p].ctx == c {
      var q, e, rest := s.queues[c], s.producers[p].event, Unnotified(s, c);
      assert q != [] ==> (q + [e])[1..] == q[1..] + [e];
      assert s.notified[c] + rest + [e] == s.notified[c] + (rest + [e]);
    }
  }

  /** A step of the worker takes a free context mutex, gives its own back, or leaves the mutex alone. */
  ghost predicate LocksInTurn(s: State, s': State, c: nat)
    requires Shaped(s) && c < |s.queues|
  {
    var before, after := WorkerHoldsContext(s.worker, c), WorkerHoldsContext(s'.worker, c);
    && Shaped(s') && |s'.queues| == |s.queues| && s'.producers == s.producers
    && (!before && after ==> s.contextLocks[c] == Free && s'.contextLocks[c] == Worker)
    && (before && !after ==> s'.contextLocks[c] == Free)
    && (before == after ==> s'.contextLocks[c] == s.contextLocks[c])
  }

  lemma WorkerLocksInTurn(s: State, c: nat)
    requires Shaped(s) && WorkerStep(s).Some? && c < |s.queues|
    ensures LocksInTurn(s, WorkerStep(s).value, c)
  {
    hide LocksInTurn;
    if ContextOfWorker(s.worker) == Some(c) { WorkerLocksHere(s, c); } else { WorkerLocksElsewhere(s, c); }
  }

  lemma WorkerLocksHere(s: State, c: nat)
    requires Shaped(s) && WorkerStep(s).Some? && c < |s.queues| && ContextOfWorker(s.worker) == Some(c)
    ensures LocksInTurn(s, WorkerStep(s).value, c)
  {
    hide Deliveries;
  }

  lemma WorkerLocksElsewhere(s: State, c: nat)
    requires Shaped(s) && WorkerStep(s).Some? && c < |s.queues| && ContextOfWorker(s.worker) != Some(c)
    ensures LocksInTurn(s, WorkerStep(s).value, c)
  {
    hide Deliveries;
  }

  lemma WorkerKeepsContextLock(s: State, c: nat)
    requires Inv(s) && WorkerStep(s).Some? && c < |s.queues|
    ensures ContextLockKept(WorkerStep(s).value, c)
  {
    assert ContextLockKept(s, c);
    hide Inv, LocksKept, NoneForgotten, Ordered, WorkLockKept, WorkerStep, WorkerHoldsContext;
    WorkerLocksInTurn(s, c);
  }

  /** A step of the worker takes the free work mutex, gives its own back, or leaves the mutex alone. */
  lemma WorkerWorkLockStep(s: State)
    requires Shaped(s) && WorkerStep(s).Some?
    ensures var s' := WorkerStep(s).value;
            var before, after := WorkerHoldsWork(s.worker), WorkerHoldsWork(s'.worker);
            && s'.producers == s.producers
            && (!before && after ==> s.workLock == Free && s'.workLock == Worker)
            && (before && !after ==> s'.workLock == Free)
            && (before == after ==> s'.workLock == s.workLock)
  {
    hide Deliveries;
  }

  lemma WorkerStaysInRange(s: State)
    requires Shaped(s) && WorkerStep(s).Some? && InRange(s)
    ensures InRange(WorkerStep(s).value)
  {
    hide Deliveries;
  }

  lemma WorkerKeepsWorkLock(s: State)
    requires Inv(s) && WorkerStep(s).Some?
    ensures WorkLockKept(WorkerStep(s).value)
  {
    assert WorkLockKept(s);
    hide Inv, LocksKept, NoneForgotten, Ordered, ContextLockKept, WorkerStep, WorkerHoldsWork, InRange;
    WorkerWorkLockStep(s);
  }

  lemma WorkerKeepsOrder(s: State, c: nat)
    requires Inv(s) && WorkerStep(s).Some? && c < |s.queues|
    ensures OrderKept(WorkerStep(s).value, c)
  {
    assert OrderKept(s, c);
    hide Inv, LocksKept, NoneForgotten, Ordered, WorkLockKept, ContextLockKept, Deliveries;
    if s.worker.RunNotify? && s.worker.ctx == c {
      NotifyKeepsOrder(s, c);
    } else if s.worker.RunPop? && s.worker.ctx == c {
      PopKeepsOrder(s, c);
    } else {
      OtherStepKeepsOrder(s, c);
    }
  }

  lemma NotifyKeepsOrder(s: State, c: nat)
    requires Shaped(s) && c < |s.queues| && OrderKept(s, c) && s.worker.RunNotify? && s.worker.ctx == c
    ensures OrderKept(WorkerStep(s).value, c)
  {
    var q := s.queues[c];
    assert s.notified[c] + [q[0]] + q[1..] == s.notified[c] + q;
  }

  lemma PopKeepsOrder(s: State, c: nat)
    requires Shaped(s) && c < |s.queues| && OrderKept(s, c) && s.worker.RunPop? && s.worker.ctx == c
    ensures OrderKept(WorkerStep(s).value, c)
  {
  }

  lemma OtherStepKeepsOrder(s: State, c: nat)
    requires Shaped(s) && c < |s.queues| && OrderKept(s, c) && WorkerStep(s).Some?
    requires !(s.worker.RunNotify? && s.worker.ctx == c) && !(s.worker.RunPop? && s.worker.ctx == c)
    ensures OrderKept(WorkerStep(s).value, c)
  {
    var s' := WorkerStep(s).value;
    OtherStepLeaves(s, c);
    hide WorkerStep;
  }

  /** The context's queue is left alone, and an event is taken only from its front. */
  ghost predicate LeftAlone(s: State, s': State, c: nat)
    requires Shaped(s) && c < |s.queues|
  {
    && Shaped(s') && |s'.queues| == |s.queues|
    && s'.queues[c] == s.queues[c] && s'.pushed[c] == s.pushed[c] && s'.notified[c] == s.notified[c]
    && (Notified(s'.worker, c) <==> Notified(s.worker, c))
    && (WorkerHoldsFront(s'.worker, c) ==> s.queues[c] != [])
    && (HoldsEvent(s'.worker, c) ==>
          (HoldsEvent(s.worker, c) && s'.worker.event == s.worker.event)
          || (s.queues[c] != [] && s'.worker.event == s.queues[c][0]))
  }

  /** What a worker step does but for notifying an event of the context or taking it out. */
  lemma OtherStepLeaves(s: State, c: nat)
    requires Shaped(s) && c < |s.queues| && WorkerStep(s).Some?
    requires !(s.worker.RunNotify? && s.worker.ctx == c) && !(s.worker.RunPop? && s.worker.ctx == c)
    ensures LeftAlone(s, WorkerStep(s).value, c)
  {
    hide LeftAlone;
    if ContextOfWorker(s.worker) == Some(c) { StepHereLeaves(s, c); } else { StepElsewhereLeaves(s, c); }
  }

  lemma StepHereLeaves(s: State, c: nat)
    requires Shaped(s) && c < |s.queues| && WorkerStep(s).Some? && ContextOfWorker(s.worker) == Some(c)
    requires !s.worker.RunNotify? && !s.worker.RunPop?
    ensures LeftAlone(s, WorkerStep(s).value, c)
  {
    hide Deliveries;
  }

  lemma StepElsewhereLeaves(s: State, c: nat)
    requires Shaped(s) && c < |s.queues| && WorkerStep(s).Some? && ContextOfWorker(s.worker) != Some(c)
    ensures LeftAlone(s, WorkerStep(s).value, c)
  {
    hide Deliveries;
  }

  lemma ProducerKeepsWorkAttended(s: State, p: nat)
    requires Inv(s) && p < |s.producers| && ProducerStep(s, p).Some?
    ensures WorkAttended(ProducerStep(s, p).value)
  {
    assert WorkLockKept(s) && WorkAttended(s);
    hide Inv, LocksKept, NoneForgotten, Ordered, ContextLockKept, ContextAttended;
  }

  lemma WorkerKeepsWorkAttended(s: State)
    requires Inv(s) && WorkerStep(s).Some?
    ensures WorkAttended(WorkerStep(s).value)
  {
    assert WorkLockKept(s) && WorkAttended(s);
    hide Inv, LocksKept, NoneForgotten, Ordered, ContextLockKept, ContextAttended;
  }

  lemma ProducerForgetsNone(s: State, p: nat, c: nat)
    requires Inv(s) && p < |s.producers| && ProducerStep(s, p).Some? && c < |s.queues|
    ensures ContextAttended(ProducerStep(s, p).value, c)
  {
    assert ContextAttended(s, c) && ContextLockKept(s, c);
    hide Inv, LocksKept, NoneForgotten, Ordered, WorkLockKept, WorkAttended;
    var s' := ProducerStep(s, p).value;
    if s'.queues[c] != [] {
      if WillNotify(s'.producers[p], c) {
      } else if WillNotify(s.producers[p], c) {
        assert s'.workQueue[|s.workQueue|] == c;
      } else if c in s.workQueue {
        var k :| 0 <= k < |s.workQueue| && s.workQueue[k] == c;
        assert s'.workQueue[k] == c;
      } else if !WillRun(s.worker, c) {
        var q :| 0 <= q < |s.producers| && WillNotify(s.producers[q], c);
        assert s'.producers[q] == s.producers[q];
      }
    }
  }

  lemma WorkerForgetsNone(s: State, c: nat)
    requires Inv(s) && WorkerStep(s).Some? && c < |s.queues|
    ensures ContextAttended(WorkerStep(s).value, c)
  {
    assert ContextAttended(s, c);
    hide Inv, LocksKept, NoneForgotten, Ordered, WorkLockKept, WorkAttended, ContextLockKept, Deliveries;
    var s' := WorkerStep(s).value;
    if s'.queues[c] != [] {
      assert s.queues[c] != [];
      if !WillRun(s'.worker, c) {
        StillQueued(s, c);
      }
    }
  }

  /** A context leaves the work queue only to be run. */
  lemma StillQueued(s: State, c: nat)
    requires Shaped(s) && WorkerStep(s).Some? && c < |s.queues|
    requires var s' := WorkerStep(s).value; !WillRun(s'.worker, c) && s'.queues[c] != []
    ensures !WillRun(s.worker, c)
    ensures c in s.workQueue ==> c in WorkerStep(s).value.workQueue
  {
    var s' := WorkerStep(s).value;
    if c in s.workQueue {
      var k :| 0 <= k < |s.workQueue| && s.workQueue[k] == c;
      if s'.workQueue != s.workQueue {
        assert k > 0 && s'.workQueue[k - 1] == c;
      }
    }
  }

  lemma ProducerKeepsInv(s: State, p: nat)
    requires Inv(s) && p < |s.producers| && ProducerStep(s, p).Some?
    ensures Inv(ProducerStep(s, p).value)
  {
    hide LocksKept, ContextLockKept, WorkLockKept, InRange, ContextAttended, WorkAttended, OrderKept;
    var s' := ProducerStep(s, p).value;
    ProducerKeepsWorkLock(s, p);
    ProducerStaysInRange(s, p);
    ProducerKeepsWorkAttended(s, p);
    forall c | 0 <= c < |s'.queues|
      ensures ContextLockKept(s', c) && ContextAttended(s', c) && OrderKept(s', c)
    {
      ProducerKeepsContextLock(s, p, c);
      ProducerForgetsNone(s, p, c);
      ProducerKeepsOrder(s, p, c);
    }
    AllKept(s');
  }

  lemma WorkerKeepsInv(s: State)
    requires Inv(s) && WorkerStep(s).Some?
    ensures Inv(WorkerStep(s).value)
  {
    hide LocksKept, ContextLockKept, WorkLockKept, InRange, ContextAttended, WorkAttended, OrderKept, Deliveries;
    var s' := WorkerStep(s).value;
    WorkerKeepsWorkLock(s);
    WorkerStaysInRange(s);
    WorkerKeepsWorkAttended(s);
    forall c | 0 <= c < |s'.queues|
      ensures ContextLockKept(s', c) && ContextAttended(s', c) && OrderKept(s', c)
    {
      WorkerKeepsContextLock(s, c);
      WorkerForgetsNone(s, c);
      WorkerKeepsOrder(s, c);
    }
    AllKept(s');
  }

  lemma AllKept(s: State)
    requires Shaped(s) && InRange(s) && WorkLockKept(s) && WorkAttended(s)
    requires forall c :: 0 <= c < |s.queues| ==> ContextLockKept(s, c) && ContextAttended(s, c) && OrderKept(s, c)
    ensures Inv(s)
  {
    hide ContextLockKept, WorkLockKept, InRange, ContextAttended, WorkAttended, OrderKept;
  }

  lemma StartIsInv(contexts: nat, producers: nat)
    ensures Inv(Start(contexts, producers))
  {
  }

  /** Every step of every thread keeps the invariant. */
  lemma StepKeepsInv(s: State, a: Action)
    requires Inv(s) && Step(s, a).Some?
    ensures Inv(Step(s, a).value) && |Step(s, a).value.queues| == |s.queues|
    ensures |Step(s, a).value.producers| == |s.producers|
  {
    match a
    case Begin(p, c, e) =>
      BeginKeepsInv(s, p, c, e);
    case Produce(p) =>
      hide Inv;
      ProducerKeepsInv(s, p);
    case Work =>
      hide Inv, Deliveries;
      WorkerKeepsInv(s);
    case Register(c, client) =>
      RegisterKeepsInv(s, c, client);
  }

  lemma BeginKeepsInv(s: State, p: nat, c: nat, e: Event)
    requires Inv(s) && Step(s, Begin(p, c, e)).Some?
    ensures Inv(Step(s, Begin(p, c, e)).value)
  {
    var s' := Step(s, Begin(p, c, e)).value;
    forall k | 0 <= k < |s.queues| ensures ContextAttended(s', k) && ContextLockKept(s', k) && OrderKept(s', k) {
      assert ContextAttended(s, k) && ContextLockKept(s, k) && OrderKept(s, k);
      BeginForgetsNone(s, p, c, e, k);
    }
  }

  lemma BeginForgetsNone(s: State, p: nat, c: nat, e: Event, k: nat)
    requires Shaped(s) && k < |s.queues| && Step(s, Begin(p, c, e)).Some? && ContextAttended(s, k)
    ensures ContextAttended(Step(s, Begin(p, c, e)).value, k)
  {
    var s' := Step(s, Begin(p, c, e)).value;
    if s.queues[k] != [] && k !in s.workQueue && !WillRun(s.worker, k) {
      var q :| 0 <= q < |s.producers| && WillNotify(s.producers[q], k);
      assert s'.producers[q] == s.producers[q];
    }
  }

  lemma RegisterKeepsInv(s: State, c: nat, client: Client)
    requires Inv(s) && Step(s, Register(c, client)).Some?
    ensures Inv(Step(s, Register(c, client)).value)
  {
    var s' := Step(s, Register(c, client)).value;
    forall k | 0 <= k < |s.queues| ensures ContextAttended(s', k) && ContextLockKept(s', k) && OrderKept(s', k) {
      assert ContextAttended(s, k) && ContextLockKept(s, k) && OrderKept(s, k);
    }
  }
}
