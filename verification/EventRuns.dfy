/** Event delivery over whole runs: nothing is stranded, order is kept, and the worker finishes. */
module EventRuns {
  import opened Wrappers
  import opened EventDelivery

  /** The state after a run of steps; None where a step is not possible. */
  function Run(s: State, actions: seq<Action>): Option<State>
    requires Shaped(s)
    decreases |actions|
  {
    if actions == [] then Some(s)
    else
      match Step(s, actions[0])
      case None => None
      case Some(s') => if Shaped(s') then Run(s', actions[1..]) else None
  }

  lemma {:induction false} RunKeepsInv(s: State, actions: seq<Action>)
    requires Inv(s) && Run(s, actions).Some?
    ensures Inv(Run(s, actions).value) && |Run(s, actions).value.queues| == |s.queues|
    ensures |Run(s, actions).value.producers| == |s.producers|
    decreases |actions|
  {
    hide Inv, Step;
    InvIsShaped(s);
    if actions != [] {
      StepKeepsInv(s, actions[0]);
      RunKeepsInv(Step(s, actions[0]).value, actions[1..]);
    }
  }

  predicate AllOutside(s: State) {
    forall p :: 0 <= p < |s.producers| ==> s.producers[p].Outside?
  }

  /** The worker has nothing to do: it waits, or is about to find that nothing is ready. */
  predicate Idle(s: State) {
    !s.ready && (s.worker.Lock? || s.worker.TestReady? || s.worker.Waiting?)
  }

  /** Every pushed event was notified, and none is queued. */
  predicate AllDelivered(s: State)
    requires Shaped(s)
  {
    forall c :: 0 <= c < |s.queues| ==> s.queues[c] == [] && s.notified[c] == s.pushed[c]
  }

  lemma IdleMeansDelivered(s: State)
    requires Inv(s) && AllOutside(s) && Idle(s)
    ensures AllDelivered(s) && s.workQueue == []
  {
    assert WorkAttended(s) && WorkLockKept(s);
    forall c | 0 <= c < |s.queues| ensures s.queues[c] == [] && s.notified[c] == s.pushed[c] {
      assert ContextAttended(s, c) && OrderKept(s, c);
    }
  }

  /**
   No stranded event: in every run, when no producer is inside a call and the worker has nothing to do, every event
   pushed to a context was notified, once and in push order.
   */
  lemma NoStrandedEvent(contexts: nat, producers: nat, actions: seq<Action>)
    requires Run(Start(contexts, producers), actions).Some?
    ensures var s := Run(Start(contexts, producers), actions).value;
            Shaped(s) && (AllOutside(s) && Idle(s) ==> AllDelivered(s))
  {
    hide Start, Run, Inv, AllOutside, Idle, AllDelivered;
    StartIsInv(contexts, producers);
    RunKeepsInv(Start(contexts, producers), actions);
    var s := Run(Start(contexts, producers), actions).value;
    InvIsShaped(s);
    if AllOutside(s) && Idle(s) { IdleMeansDelivered(s); }
  }

  lemma InvIsShaped(s: State)
    requires Inv(s)
    ensures Shaped(s)
  {
  }

  /** In every run, at any moment, the notified events of a context are the first of those pushed. */
  lemma DeliveredInOrder(contexts: nat, producers: nat, actions: seq<Action>, c: nat)
    requires Run(Start(contexts, producers), actions).Some? && c < contexts
    ensures var s := Run(Start(contexts, producers), actions).value;
            Shaped(s) && c < |s.queues| && s.notified[c] <= s.pushed[c]
  {
    StartIsInv(contexts, producers);
    RunKeepsInv(Start(contexts, producers), actions);
    var s := Run(Start(contexts, producers), actions).value;
    assert OrderKept(s, c);
  }

  // ------------------------------------------------------------------------------------------------
  // Progress
  // ------------------------------------------------------------------------------------------------

  function Total(queues: seq<seq<Event>>): nat {
    if queues == [] then 0 else |queues[0]| + Total(queues[1..])
  }

  lemma {:induction false} TotalUpdate(queues: seq<seq<Event>>, c: nat, q: seq<Event>)
    requires c < |queues|
    ensures Total(queues[c := q]) == Total(queues) - |queues[c]| + |q|
  {
    if c == 0 {
      assert queues[c := q][1..] == queues[1..];
    } else {
      assert queues[c := q][1..] == queues[1..][c - 1 := q];
      TotalUpdate(queues[1..], c - 1, q);
    }
  }

  /** How many steps the worker is from the end of its round, apart from queued work. */
  function Rank(s: State): nat {
    match s.worker
    case Lock => if s.ready then 4 else 0
    case Waiting => if s.ready then 4 else 0
    case TestReady => if s.ready then 3 else 0
    case TestWork => 2
    case ClearReady => 1
    case Relock => 3
    case RunEnd(_) => 4
    case RunPop(_, _) => 5
    case RunRelock(_, _) => 6
    case RunNotify(_, _) => 7
    case RunUnlock(_, _) => 8
    case RunFront(_) => 9
    case RunTest(_) => 10
    case RunLock(_) => 11
    case UnlockFor(_) => 12
  }

  function WorkLeft(s: State): nat { 6 * Total(s.queues) + 11 * |s.workQueue| + Rank(s) }

  /** With no producer inside a call the worker never has to wait for a mutex, and every step leaves less work. */
  lemma WorkerProgresses(s: State)
    requires Inv(s) && AllOutside(s) && !Idle(s)
    ensures WorkerStep(s).Some?
    ensures var s' := WorkerStep(s).value; AllOutside(s') && WorkLeft(s') < WorkLeft(s)
  {
    WorkerIsFree(s);
    hide Inv, Deliveries;
    if s.worker.RunPop? { TotalUpdate(s.queues, s.worker.ctx, s.queues[s.worker.ctx][1..]); }
  }

  lemma WorkerIsFree(s: State)
    requires Inv(s) && AllOutside(s)
    ensures Shaped(s) && WorkerStep(s).Some?
    ensures s.worker.RunPop? ==> s.worker.ctx < |s.queues| && s.queues[s.worker.ctx] != []
  {
    assert WorkLockKept(s) && InRange(s);
    if ContextOfWorker(s.worker).Some? {
      var c := ContextOfWorker(s.worker).value;
      assert ContextLockKept(s, c) && OrderKept(s, c);
    }
    hide Inv, Deliveries;
  }

  function WorkSteps(n: nat): (actions: seq<Action>)
    ensures |actions| == n && forall i :: 0 <= i < n ==> actions[i] == Work
  {
    seq(n, _ => Work)
  }

  /**
   Delivery completes: from every reachable state in which no producer is inside a call, the worker alone reaches, in a
   bounded number of steps, a state in which everything pushed was notified.
   */
  lemma {:induction false} WorkerDelivers(s: State) returns (n: nat)
    requires Inv(s) && AllOutside(s)
    ensures Shaped(s) && n <= WorkLeft(s) && Run(s, WorkSteps(n)).Some?
    ensures var s' := Run(s, WorkSteps(n)).value; Shaped(s') && Idle(s') && AllDelivered(s')
    decreases WorkLeft(s)
  {
    hide Inv, AllOutside, Idle, AllDelivered, WorkLeft;
    InvIsShaped(s);
    if Idle(s) {
      IdleMeansDelivered(s);
      n := 0;
    } else {
      WorkerProgresses(s);
      WorkerKeepsInv(s);
      InvIsShaped(WorkerStep(s).value);
      var m := WorkerDelivers(WorkerStep(s).value);
      n := m + 1;
      assert WorkSteps(n)[1..] == WorkSteps(m);
      OneStepMore(s, m);
    }
  }

  lemma OneStepMore(s: State, m: nat)
    requires Shaped(s) && WorkerStep(s).Some? && Shaped(WorkerStep(s).value)
    ensures Run(s, WorkSteps(m + 1)) == Run(WorkerStep(s).value, WorkSteps(m))
  {
    hide WorkerStep;
    assert WorkSteps(m + 1)[1..] == WorkSteps(m);
    assert Step(s, Work) == WorkerStep(s);
  }

  // ------------------------------------------------------------------------------------------------
  // Clients
  // ------------------------------------------------------------------------------------------------

  predicate Sorted(cs: seq<Client>) {
    forall i, j :: 0 <= i < j < |cs| ==> cs[i].prio >= cs[j].prio
  }

  /** Where the new client goes: behind exactly those of higher priority. */
  lemma {:induction false} InsertIs(cs: seq<Client>, c: Client) returns (k: nat)
    requires Sorted(cs)
    ensures k <= |cs| && Insert(cs, c) == cs[..k] + [c] + cs[k..]
    ensures (forall i :: 0 <= i < k ==> cs[i].prio > c.prio) && (forall i :: k <= i < |cs| ==> cs[i].prio <= c.prio)
  {
    if cs == [] || c.prio >= cs[0].prio {
      k := 0;
      assert [c] + cs == cs[..0] + [c] + cs[0..];
    } else {
      var j := InsertIs(cs[1..], c);
      k := j + 1;
      assert cs[..k] == [cs[0]] + cs[1..][..j] && cs[k..] == cs[1..][j..];
      assert Insert(cs, c) == cs[..k] + [c] + cs[k..];
      forall i | 0 <= i < k ensures cs[i].prio > c.prio { assert i > 0 ==> cs[i] == cs[1..][i - 1]; }
      forall i | k <= i < |cs| ensures cs[i].prio <= c.prio { assert cs[i] == cs[1..][i - 1]; }
    }
  }

  lemma InsertKeepsSorted(cs: seq<Client>, c: Client)
    requires Sorted(cs)
    ensures Sorted(Insert(cs, c))
  {
    var k := InsertIs(cs, c);
    var r := Insert(cs, c);
    forall i | 0 <= i < |r| ensures r[i] == if i < k then cs[i] else if i == k then c else cs[i - 1] {}
    hide Insert;
  }

  /** In every run, each context's clients are told in order of priority. */
  lemma {:induction false} ClientsStaySorted(s: State, actions: seq<Action>)
    requires Shaped(s) && Run(s, actions).Some? && forall c :: 0 <= c < |s.clients| ==> Sorted(s.clients[c])
    ensures var s' := Run(s, actions).value; forall c :: 0 <= c < |s'.clients| ==> Sorted(s'.clients[c])
    decreases |actions|
  {
    if actions != [] {
      var s' := Step(s, actions[0]).value;
      forall c | 0 <= c < |s'.clients| ensures Sorted(s'.clients[c]) { StepKeepsSorted(s, actions[0], c); }
      hide Step, Sorted;
      ClientsStaySorted(s', actions[1..]);
    }
  }

  lemma StepKeepsSorted(s: State, a: Action, c: nat)
    requires Shaped(s) && Step(s, a).Some? && forall k :: 0 <= k < |s.clients| ==> Sorted(s.clients[k])
    ensures var s' := Step(s, a).value; c < |s'.clients| ==> Sorted(s'.clients[c])
  {
    hide Sorted, Deliveries, Insert;
    if a.Register? && a.ctx < |s.queues| {
      InsertKeepsSorted(s.clients[a.ctx], a.client);
    }
  }

  /** What the clients of a list are told about events: one event after the other, each client once. */
  function Told(cs: seq<Client>, es: seq<Event>): seq<Delivery> {
    if es == [] then [] else Told(cs, es[..|es| - 1]) + Deliveries(cs, es[|es| - 1])
  }

  lemma {:induction false} ToldMore(cs: seq<Client>, es: seq<Event>, fs: seq<Event>)
    ensures Told(cs, es + fs) == Told(cs, es) + Told(cs, fs)
    decreases |fs|
  {
    if fs == [] {
      assert es + fs == es;
    } else {
      var before, last := fs[..|fs| - 1], fs[|fs| - 1];
      ToldMore(cs, es, before);
      assert (es + fs)[..|es + fs| - 1] == es + before;
      assert Told(cs, es) + Told(cs, before) + Deliveries(cs, last)
          == Told(cs, es) + (Told(cs, before) + Deliveries(cs, last));
    }
  }

  /** The calls made between two states are those that the events notified in between require. */
  predicate ToldBetween(s: State, s': State, c: nat)
    requires Shaped(s) && Shaped(s') && c < |s.queues| == |s'.queues|
  {
    && s'.clients[c] == s.clients[c] && s.notified[c] <= s'.notified[c]
    && s'.log[c] == s.log[c] + Told(s.clients[c], s'.notified[c][|s.notified[c]|..])
  }

  lemma ToldNothing(s: State, s': State, c: nat)
    requires Shaped(s) && Shaped(s') && c < |s.queues| == |s'.queues|
    requires s'.clients[c] == s.clients[c] && s'.notified[c] == s.notified[c] && s'.log[c] == s.log[c]
    ensures ToldBetween(s, s', c)
  {
    assert s.notified[c][|s.notified[c]|..] == [];
  }

  lemma ToldOne(s: State, s': State, c: nat, e: Event)
    requires Shaped(s) && Shaped(s') && c < |s.queues| == |s'.queues|
    requires s'.clients[c] == s.clients[c] && s'.notified[c] == s.notified[c] + [e]
    requires s'.log[c] == s.log[c] + Deliveries(s.clients[c], e)
    ensures ToldBetween(s, s', c)
  {
    var es := s'.notified[c][|s.notified[c]|..];
    assert es == [e] && es[..0] == [];
    assert Told(s.clients[c], es) == [] + Deliveries(s.clients[c], e);
  }

  lemma StepTells(s: State, a: Action, c: nat)
    requires Shaped(s) && Step(s, a).Some? && c < |s.queues| && !(a.Register? && a.ctx == c)
    ensures var s' := Step(s, a).value;
            Shaped(s') && |s'.queues| == |s.queues| && ToldBetween(s, s', c)
  {
    hide ToldBetween, Deliveries, Insert;
    var s' := Step(s, a).value;
    if a.Work? && s.worker.RunNotify? && s.worker.ctx == c {
      ToldOne(s, s', c, s.worker.event);
    } else {
      StepSilent(s, a, c);
      ToldNothing(s, s', c);
    }
  }

  /** Nothing is notified to context `c`, and its list stays. */
  predicate Silent(s: State, s': State, c: nat)
    requires Shaped(s) && c < |s.queues|
  {
    && Shaped(s') && |s'.queues| == |s.queues| && s'.clients[c] == s.clients[c]
    && s'.notified[c] == s.notified[c] && s'.log[c] == s.log[c]
  }

  lemma StepSilent(s: State, a: Action, c: nat)
    requires Shaped(s) && Step(s, a).Some? && c < |s.queues| && !(a.Register? && a.ctx == c)
    requires !(a.Work? && s.worker.RunNotify? && s.worker.ctx == c)
    ensures Silent(s, Step(s, a).value, c)
  {
    match a
    case Produce(p) => ProducerSilent(s, p, c);
    case Work => WorkerSilent(s, c);
    case _ => hide Insert;
  }

  lemma ProducerSilent(s: State, p: nat, c: nat)
    requires Shaped(s) && p < |s.producers| && ProducerStep(s, p).Some? && c < |s.queues|
    ensures Silent(s, ProducerStep(s, p).value, c)
  {
  }

  lemma WorkerSilent(s: State, c: nat)
    requires Shaped(s) && WorkerStep(s).Some? && c < |s.queues| && !(s.worker.RunNotify? && s.worker.ctx == c)
    ensures Silent(s, WorkerStep(s).value, c)
  {
    hide Silent;
    if ContextOfWorker(s.worker) == Some(c) { SilentHere(s, c); } else { SilentElsewhere(s, c); }
  }

  lemma SilentHere(s: State, c: nat)
    requires Shaped(s) && WorkerStep(s).Some? && c < |s.queues| && !s.worker.RunNotify?
    requires ContextOfWorker(s.worker) == Some(c)
    ensures Silent(s, WorkerStep(s).value, c)
  {
    hide Deliveries;
  }

  lemma SilentElsewhere(s: State, c: nat)
    requires Shaped(s) && WorkerStep(s).Some? && c < |s.queues| && ContextOfWorker(s.worker) != Some(c)
    ensures Silent(s, WorkerStep(s).value, c)
  {
    hide Deliveries;
  }

  lemma ToldInTurn(s: State, t: State, u: State, c: nat)
    requires Shaped(s) && Shaped(t) && Shaped(u) && c < |s.queues| == |t.queues| == |u.queues|
    requires ToldBetween(s, t, c) && ToldBetween(t, u, c)
    ensures ToldBetween(s, u, c)
  {
    var first, second := t.notified[c][|s.notified[c]|..], u.notified[c][|t.notified[c]|..];
    hide Told;
    ToldMore(s.clients[c], first, second);
    RestOfRest(s.notified[c], t.notified[c], u.notified[c]);
    Assoc(s.log[c], Told(s.clients[c], first), Told(s.clients[c], second));
  }

  lemma RestOfRest(a: seq<Event>, b: seq<Event>, c: seq<Event>)
    requires a <= b <= c
    ensures c[|a|..] == b[|a|..] + c[|b|..]
  {
  }

  lemma Assoc(a: seq<Delivery>, b: seq<Delivery>, c: seq<Delivery>)
    ensures a + b + c == a + (b + c)
  {
  }

  /**
   While nobody registers with a context, its clients are told about exactly the events notified meanwhile: every
   client once for each event, event by event, and within an event in the order of the list.
   */
  lemma {:induction false} EveryClientIsTold(s: State, actions: seq<Action>, c: nat)
    requires Shaped(s) && Run(s, actions).Some? && c < |s.queues|
    requires forall i :: 0 <= i < |actions| ==> !(actions[i].Register? && actions[i].ctx == c)
    ensures var s' := Run(s, actions).value;
            Shaped(s') && |s'.queues| == |s.queues| && ToldBetween(s, s', c)
    decreases |actions|
  {
    hide Step, ToldBetween;
    if actions == [] {
      ToldNothing(s, s, c);
    } else {
      var t := Step(s, actions[0]).value;
      StepTells(s, actions[0], c);
      EveryClientIsTold(t, actions[1..], c);
      ToldInTurn(s, t, Run(s, actions).value, c);
    }
  }

  /** The list that a context keeps, updated in place. */
  class PriorityList {
    var clients: seq<Client>

    constructor ()
      ensures clients == []
    {
      clients := [];
    }

    /** Walks the list to the first client of no higher priority and inserts there. */
    method Register(client: Client)
      requires Sorted(clients)
      modifies this
      ensures clients == Insert(old(clients), client) && Sorted(clients)
    {
      ghost var was := clients;
      ghost var k := InsertIs(clients, client);
      var it := 0;
      while it < |clients|
        invariant it <= k <= |clients| && clients == was
      {
        if client.prio >= clients[it].prio { break; }
        it := it + 1;
      }
      assert it == k;
      InsertKeepsSorted(was, client);
      clients := clients[..it] + [client] + clients[it..];
    }
  }
}
