/** Event delivery in terms of the calls: what is notified is what the callers of a run handed over. */
module EventCalls {
  import opened Wrappers
  import opened EventDelivery
  import opened EventRuns

  // ------------------------------------------------------------------------------------------------
  // The calls of a run
  // ------------------------------------------------------------------------------------------------

  /** The event that an action hands over to context `c` from producer `p`, if it does. */
  function CallBy(a: Action, p: nat, c: nat): seq<Event> {
    if a.Begin? && a.p == p && a.ctx == c then [a.event] else []
  }

  /** The events that producer `p` was called with for context `c`, in call order. */
  function CallsBy(actions: seq<Action>, p: nat, c: nat): seq<Event> {
    if actions == [] then [] else CallBy(actions[0], p, c) + CallsBy(actions[1..], p, c)
  }

  function CallTo(a: Action, c: nat): seq<Event> { if a.Begin? && a.ctx == c then [a.event] else [] }

  /** The events that any producer was called with for context `c`. */
  function CallsTo(actions: seq<Action>, c: nat): seq<Event> {
    if actions == [] then [] else CallTo(actions[0], c) + CallsTo(actions[1..], c)
  }

  /** The clients that a run registers with context `c`, in call order. */
  function Registered(actions: seq<Action>, c: nat): seq<Client> {
    if actions == [] then []
    else
      (if actions[0].Register? && actions[0].ctx == c then [actions[0].client] else [])
      + Registered(actions[1..], c)
  }

  /** Those of the events that producer `p` pushed, where `who` names the producer of each. */
  function PushedBy(es: seq<Event>, who: seq<nat>, p: nat): seq<Event>
    requires |es| == |who|
  {
    if es == [] then [] else (if who[0] == p then [es[0]] else []) + PushedBy(es[1..], who[1..], p)
  }

  /** The event that a producer was called with and has not pushed yet. */
  function Pending(pc: ProducerPC, c: nat): seq<Event> {
    if (pc.LockContext? || pc.PushEvent?) && pc.ctx == c then [pc.event] else []
  }

  function AllPending(pcs: seq<ProducerPC>, c: nat): multiset<Event> {
    if pcs == [] then multiset{} else multiset(Pending(pcs[0], c)) + AllPending(pcs[1..], c)
  }

  lemma AddToBoth(m: multiset<Event>, a: multiset<Event>, b: multiset<Event>, x: multiset<Event>, y: multiset<Event>)
    requires a + b == x + y
    ensures (m + a) + b == (m + x) + y
  {
    assert (m + a) + b == m + (a + b) && (m + x) + y == m + (x + y);
  }

  lemma Cancel(a: multiset<Event>, b: multiset<Event>, m: multiset<Event>, x: multiset<Event>)
    requires a + (b + m) == x + m
    ensures b + a == x
  {
    forall e ensures (b + a)[e] == x[e] { assert (a + (b + m))[e] == (x + m)[e]; }
  }

  lemma {:induction false} AllPendingUpdate(pcs: seq<ProducerPC>, c: nat, p: nat, pc: ProducerPC)
    requires p < |pcs|
    ensures AllPending(pcs[p := pc], c) + multiset(Pending(pcs[p], c)) == AllPending(pcs, c) + multiset(Pending(pc, c))
  {
    hide Pending;
    if p == 0 {
      assert pcs[p := pc][1..] == pcs[1..];
    } else {
      assert pcs[p := pc][1..] == pcs[1..][p - 1 := pc];
      AllPendingUpdate(pcs[1..], c, p - 1, pc);
      AddToBoth(multiset(Pending(pcs[0], c)), AllPending(pcs[1..][p - 1 := pc], c), multiset(Pending(pcs[p], c)),
                AllPending(pcs[1..], c), multiset(Pending(pc, c)));
    }
  }

  lemma {:induction false} NothingPending(pcs: seq<ProducerPC>, c: nat)
    requires forall p :: 0 <= p < |pcs| ==> pcs[p].Outside?
    ensures AllPending(pcs, c) == multiset{}
  {
    if pcs != [] { NothingPending(pcs[1..], c); }
  }

  // ------------------------------------------------------------------------------------------------
  // One step
  // ------------------------------------------------------------------------------------------------

  /** The producer that pushes to context `c` in this step. */
  function Pusher(s: State, a: Action, c: nat): Option<nat> {
    if a.Produce? && a.p < |s.producers| && s.producers[a.p].PushEvent? && s.producers[a.p].ctx == c then Some(a.p)
    else None
  }

  /** What a step pushes to context `c`. */
  function Push(s: State, a: Action, c: nat): seq<Event> {
    if Pusher(s, a, c).Some? then [s.producers[a.p].event] else []
  }

  /** A step hands an event over, or pushes one that was handed over, or does neither. */
  lemma StepPushes(s: State, a: Action, c: nat)
    requires Shaped(s) && Step(s, a).Some? && c < |s.queues|
    ensures var t := Step(s, a).value;
            && Shaped(t) && |t.queues| == |s.queues| && |t.producers| == |s.producers|
            && t.pushed[c] == s.pushed[c] + Push(s, a, c)
            && (a.Begin? || a.Produce? ==> a.p < |s.producers| && t.producers == s.producers[a.p := t.producers[a.p]])
            && (a.Begin? ==> Pending(s.producers[a.p], c) == [] && Pending(t.producers[a.p], c) == CallTo(a, c))
            && (a.Produce? ==> Pending(s.producers[a.p], c) == Push(s, a, c) + Pending(t.producers[a.p], c))
            && (a.Work? || a.Register? ==> t.producers == s.producers)
  {
    hide Insert, Deliveries;
    if a.Work? { WorkPushesNothing(s, c); }
  }

  lemma WorkPushesNothing(s: State, c: nat)
    requires Shaped(s) && WorkerStep(s).Some? && c < |s.queues|
    ensures var t := WorkerStep(s).value;
            Shaped(t) && |t.queues| == |s.queues| && t.producers == s.producers && t.pushed == s.pushed
  {
    hide Deliveries;
  }

  /** For each producer, what was handed over is what is pushed and what is still pending. */
  lemma StepHandsOver(s: State, a: Action, c: nat, p: nat)
    requires Shaped(s) && Step(s, a).Some? && c < |s.queues| && p < |s.producers|
    ensures var t := Step(s, a).value;
            && |t.producers| == |s.producers|
            && Pending(s.producers[p], c) + CallBy(a, p, c)
               == (if Pusher(s, a, c) == Some(p) then Push(s, a, c) else []) + Pending(t.producers[p], c)
  {
    hide Step, Pending;
    StepPushes(s, a, c);
  }

  /** For all producers together. */
  lemma StepKeepsAll(s: State, a: Action, c: nat)
    requires Shaped(s) && Step(s, a).Some? && c < |s.queues|
    ensures var t := Step(s, a).value;
            multiset(Push(s, a, c)) + AllPending(t.producers, c)
            == AllPending(s.producers, c) + multiset(CallTo(a, c))
  {
    StepPushes(s, a, c);
    NoPush(s, a, c);
    hide Step, Pending, Push, AllPending;
    var t := Step(s, a).value;
    if a.Begin? || a.Produce? {
      AllPendingUpdate(s.producers, c, a.p, t.producers[a.p]);
    }
    if a.Produce? {
      var before, after := Pending(s.producers[a.p], c), Pending(t.producers[a.p], c);
      assert multiset(before) == multiset(Push(s, a, c)) + multiset(after);
      Cancel(AllPending(t.producers, c), multiset(Push(s, a, c)), multiset(after), AllPending(s.producers, c));
    }
  }

  lemma NoPush(s: State, a: Action, c: nat)
    ensures !a.Produce? ==> Push(s, a, c) == []
  {
  }

  // ------------------------------------------------------------------------------------------------
  // Whole runs
  // ------------------------------------------------------------------------------------------------

  /** What a run pushed to context `c`. */
  function NewlyPushed(s: State, t: State, c: nat): seq<Event>
    requires Shaped(s) && Shaped(t) && c < |s.queues| == |t.queues|
  {
    if s.pushed[c] <= t.pushed[c] then t.pushed[c][|s.pushed[c]|..] else t.pushed[c]
  }

  lemma PushedInTurn(s: State, t: State, u: State, c: nat, first: seq<Event>)
    requires Shaped(s) && Shaped(t) && Shaped(u) && c < |s.queues| == |t.queues| == |u.queues|
    requires t.pushed[c] == s.pushed[c] + first && t.pushed[c] <= u.pushed[c]
    ensures s.pushed[c] <= u.pushed[c] && NewlyPushed(s, u, c) == first + NewlyPushed(t, u, c)
  {
  }

  lemma PushedByMore(first: seq<Event>, es: seq<Event>, pusher: Option<nat>, who: seq<nat>, p: nat)
    requires |es| == |who| && |first| == if pusher.Some? then 1 else 0
    ensures var labels := if pusher.Some? then [pusher.value] + who else who;
            PushedBy(first + es, labels, p) == (if pusher == Some(p) then first else []) + PushedBy(es, who, p)
  {
    if pusher.Some? {
      var all, labels := first + es, [pusher.value] + who;
      assert all[1..] == es && labels[1..] == who && first == [all[0]];
    } else {
      assert first + es == es;
    }
  }

  lemma Regroup(a: seq<Event>, b: seq<Event>, c: seq<Event>, d: seq<Event>, e: seq<Event>, f: seq<Event>, g: seq<Event>)
    requires a + b == c + d && d + e == f + g
    ensures a + (b + e) == c + f + g
  {
    assert a + (b + e) == (a + b) + e && (c + d) + e == c + (d + e) && c + (f + g) == c + f + g;
  }

  lemma AllInTurn(first: seq<Event>, more: seq<Event>, call: seq<Event>, calls: seq<Event>,
                  s: multiset<Event>, t: multiset<Event>, u: multiset<Event>)
    requires multiset(first) + t == s + multiset(call) && multiset(more) + u == t + multiset(calls)
    ensures multiset(first + more) + u == s + multiset(call + calls)
  {
    forall e ensures (multiset(first + more) + u)[e] == (s + multiset(call + calls))[e] {
      assert (multiset(first) + t)[e] == (s + multiset(call))[e];
      assert (multiset(more) + u)[e] == (t + multiset(calls))[e];
    }
  }

  /** The events of producer `p`: those handed over are those pushed, in call order, and the one still pending. */
  predicate HandedOver(s: State, t: State, actions: seq<Action>, c: nat, who: seq<nat>, p: nat)
    requires Shaped(s) && Shaped(t) && c < |s.queues| == |t.queues| && |who| == |NewlyPushed(s, t, c)|
    requires p < |s.producers| == |t.producers|
  {
    Pending(s.producers[p], c) + CallsBy(actions, p, c)
    == PushedBy(NewlyPushed(s, t, c), who, p) + Pending(t.producers[p], c)
  }

  predicate AllHandedOver(s: State, t: State, actions: seq<Action>, c: nat)
    requires Shaped(s) && Shaped(t) && c < |s.queues| == |t.queues|
  {
    multiset(NewlyPushed(s, t, c)) + AllPending(t.producers, c)
    == AllPending(s.producers, c) + multiset(CallsTo(actions, c))
  }

  function Labels(s: State, a: Action, c: nat): seq<nat> {
    if Pusher(s, a, c).Some? then [Pusher(s, a, c).value] else []
  }

  lemma HandsOverMore(s: State, a: Action, u: State, actions: seq<Action>, c: nat, who: seq<nat>, p: nat)
    requires Shaped(s) && Step(s, a).Some? && c < |s.queues| == |u.queues| && p < |s.producers| == |u.producers|
    requires Shaped(Step(s, a).value) && Shaped(u) && |Step(s, a).value.queues| == |s.queues|
    requires Step(s, a).value.pushed[c] == s.pushed[c] + Push(s, a, c) && Step(s, a).value.pushed[c] <= u.pushed[c]
    requires |Step(s, a).value.producers| == |s.producers| && |who| == |NewlyPushed(Step(s, a).value, u, c)|
    requires HandedOver(Step(s, a).value, u, actions, c, who, p)
    ensures s.pushed[c] <= u.pushed[c] && |NewlyPushed(s, u, c)| == |Labels(s, a, c) + who|
    ensures HandedOver(s, u, [a] + actions, c, Labels(s, a, c) + who, p)
  {
    var t, first, all := Step(s, a).value, Push(s, a, c), [a] + actions;
    PushedInTurn(s, t, u, c, first);
    assert all[0] == a && all[1..] == actions;
    var more := NewlyPushed(t, u, c);
    PushedByMore(first, more, Pusher(s, a, c), who, p);
    assert Labels(s, a, c) + who == if Pusher(s, a, c).Some? then [Pusher(s, a, c).value] + who else who;
    hide Step, Pending, PushedBy;
    StepHandsOver(s, a, c, p);
    Regroup(Pending(s.producers[p], c), CallBy(a, p, c), if Pusher(s, a, c) == Some(p) then first else [],
            Pending(t.producers[p], c), CallsBy(actions, p, c), PushedBy(more, who, p), Pending(u.producers[p], c));
  }

  lemma AllHandOverMore(s: State, a: Action, u: State, actions: seq<Action>, c: nat)
    requires Shaped(s) && Step(s, a).Some? && c < |s.queues| == |u.queues|
    requires Shaped(Step(s, a).value) && Shaped(u) && |Step(s, a).value.queues| == |s.queues|
    requires Step(s, a).value.pushed[c] == s.pushed[c] + Push(s, a, c) && Step(s, a).value.pushed[c] <= u.pushed[c]
    requires AllHandedOver(Step(s, a).value, u, actions, c)
    ensures AllHandedOver(s, u, [a] + actions, c)
  {
    var t, first, all := Step(s, a).value, Push(s, a, c), [a] + actions;
    PushedInTurn(s, t, u, c, first);
    StepKeepsAll(s, a, c);
    assert all[0] == a && all[1..] == actions;
    hide Step, Push, AllPending, CallTo;
    AllInTurn(first, NewlyPushed(t, u, c), CallTo(a, c), CallsTo(actions, c),
              AllPending(s.producers, c), AllPending(t.producers, c), AllPending(u.producers, c));
  }

  /** Between two states context `c` gets what the calls handed over: for each producer in call order, and in all. */
  predicate Conserved(s: State, t: State, actions: seq<Action>, c: nat, who: seq<nat>)
    requires Shaped(s) && c < |s.queues|
  {
    && Shaped(t) && |t.queues| == |s.queues| && |t.producers| == |s.producers|
    && s.pushed[c] <= t.pushed[c] && |who| == |NewlyPushed(s, t, c)|
    && (forall i :: 0 <= i < |who| ==> who[i] < |s.producers|)
    && (forall p :: 0 <= p < |s.producers| ==> HandedOver(s, t, actions, c, who, p))
    && AllHandedOver(s, t, actions, c)
  }

  lemma LabelEach(s: State, a: Action, c: nat)
    ensures |Labels(s, a, c)| == |Push(s, a, c)|
    ensures forall i :: 0 <= i < |Labels(s, a, c)| ==> Labels(s, a, c)[i] < |s.producers|
  {
  }

  lemma ConservedMore(s: State, a: Action, u: State, actions: seq<Action>, c: nat, who: seq<nat>)
    requires Shaped(s) && Step(s, a).Some? && c < |s.queues|
    requires Shaped(Step(s, a).value) && |Step(s, a).value.queues| == |s.queues|
    requires Conserved(Step(s, a).value, u, actions, c, who)
    ensures Conserved(s, u, [a] + actions, c, Labels(s, a, c) + who)
  {
    hide Step, HandedOver, AllHandedOver, NewlyPushed, Push, Labels;
    StepPushes(s, a, c);
    PushedInTurn(s, Step(s, a).value, u, c, Push(s, a, c));
    LabelEach(s, a, c);
    forall p | 0 <= p < |s.producers| ensures HandedOver(s, u, [a] + actions, c, Labels(s, a, c) + who, p) {
      HandsOverMore(s, a, u, actions, c, who, p);
    }
    AllHandOverMore(s, a, u, actions, c);
  }

  lemma ConservedAtFirst(s: State, c: nat)
    requires Shaped(s) && c < |s.queues|
    ensures Conserved(s, s, [], c, [])
  {
    hide Pending, AllPending;
    assert NewlyPushed(s, s, c) == [];
  }

  /** In every run, a context gets what the calls handed over. */
  lemma {:induction false} RunHandsOver(s: State, actions: seq<Action>, c: nat) returns (who: seq<nat>)
    requires Shaped(s) && Run(s, actions).Some? && c < |s.queues|
    ensures Conserved(s, Run(s, actions).value, actions, c, who)
    decreases |actions|
  {
    if actions == [] {
      who := [];
      ConservedAtFirst(s, c);
    } else {
      var a, t := actions[0], Step(s, actions[0]).value;
      StepPushes(s, a, c);
      hide Step, Conserved, Labels, Push;
      var rest := RunHandsOver(t, actions[1..], c);
      assert actions == [a] + actions[1..];
      who := Labels(s, a, c) + rest;
      ConservedMore(s, a, Run(s, actions).value, actions[1..], c, rest);
    }
  }

  lemma NothingPendingAtFirst(contexts: nat, producers: nat, c: nat)
    requires c < contexts
    ensures var s := Start(contexts, producers);
            && s.pushed[c] == [] && |s.producers| == producers && AllPending(s.producers, c) == multiset{}
            && forall p :: 0 <= p < producers ==> Pending(s.producers[p], c) == []
  {
    NothingPending(Start(contexts, producers).producers, c);
  }

  lemma EventsOfProducer(s: State, t: State, actions: seq<Action>, c: nat, who: seq<nat>, p: nat)
    requires Shaped(s) && c < |s.queues| && Conserved(s, t, actions, c, who) && p < |s.producers|
    requires s.pushed[c] == [] && Pending(s.producers[p], c) == []
    ensures |t.pushed[c]| == |who| && PushedBy(t.pushed[c], who, p) <= CallsBy(actions, p, c)
    ensures AllOutside(t) ==> PushedBy(t.pushed[c], who, p) == CallsBy(actions, p, c)
  {
    hide PushedBy, CallsBy, AllHandedOver;
    assert NewlyPushed(s, t, c) == t.pushed[c];
    assert HandedOver(s, t, actions, c, who, p);
    assert [] + CallsBy(actions, p, c) == CallsBy(actions, p, c);
    assert AllOutside(t) ==> Pending(t.producers[p], c) == [];
  }

  lemma EventsOfAll(s: State, t: State, actions: seq<Action>, c: nat, who: seq<nat>)
    requires Shaped(s) && c < |s.queues| && Conserved(s, t, actions, c, who)
    requires s.pushed[c] == [] && AllPending(s.producers, c) == multiset{} && AllOutside(t)
    ensures multiset(t.pushed[c]) == multiset(CallsTo(actions, c))
  {
    hide HandedOver, CallsTo, AllPending;
    assert NewlyPushed(s, t, c) == t.pushed[c];
    NothingPending(t.producers, c);
    Cancel(multiset(CallsTo(actions, c)), multiset{}, multiset{}, multiset(t.pushed[c]));
  }

  /**
   Every call arrives. In every run, the events that a context got from one producer are the first of those that the
   producer was called with, in call order. When no producer is inside a call they are all of them, and the context's
   events together are those of all calls; when the worker has nothing to do either, all of these were notified.
   */
  lemma EveryCallArrives(contexts: nat, producers: nat, actions: seq<Action>, c: nat) returns (who: seq<nat>)
    requires Run(Start(contexts, producers), actions).Some? && c < contexts
    ensures var s := Run(Start(contexts, producers), actions).value;
            && Shaped(s) && |s.queues| == contexts && |who| == |s.pushed[c]|
            && (forall i :: 0 <= i < |who| ==> who[i] < producers)
            && (forall p :: 0 <= p < producers ==> PushedBy(s.pushed[c], who, p) <= CallsBy(actions, p, c))
            && (AllOutside(s) ==>
                  && (forall p :: 0 <= p < producers ==> PushedBy(s.pushed[c], who, p) == CallsBy(actions, p, c))
                  && multiset(s.pushed[c]) == multiset(CallsTo(actions, c)))
            && (AllOutside(s) && Idle(s) ==> s.notified[c] == s.pushed[c] && s.queues[c] == [])
  {
    var s0 := Start(contexts, producers);
    var s := Run(s0, actions).value;
    NothingPendingAtFirst(contexts, producers, c);
    hide Start, Run, Idle, AllOutside, CallsBy, PushedBy, CallsTo, HandedOver, AllHandedOver, NewlyPushed, AllPending,
      Pending;
    who := RunHandsOver(s0, actions, c);
    NoStrandedEvent(contexts, producers, actions);
    hide Conserved;
    assert s.pushed[c] == s.pushed[c];
    forall p | 0 <= p < producers
      ensures |s.pushed[c]| == |who| && PushedBy(s.pushed[c], who, p) <= CallsBy(actions, p, c)
      ensures AllOutside(s) ==> PushedBy(s.pushed[c], who, p) == CallsBy(actions, p, c)
    {
      EventsOfProducer(s0, s, actions, c, who, p);
    }
    if AllOutside(s) { EventsOfAll(s0, s, actions, c, who); }
  }

  // ------------------------------------------------------------------------------------------------
  // Registered clients
  // ------------------------------------------------------------------------------------------------

  /** The clients of one priority, in order. */
  function OfPrio(cs: seq<Client>, prio: nat): seq<Client> {
    if cs == [] then [] else (if cs[0].prio == prio then [cs[0]] else []) + OfPrio(cs[1..], prio)
  }

  function Reversed(cs: seq<Client>): seq<Client> {
    if cs == [] then [] else Reversed(cs[1..]) + [cs[0]]
  }

  lemma OfPrioCons(c: Client, cs: seq<Client>, prio: nat)
    ensures OfPrio([c] + cs, prio) == (if c.prio == prio then [c] else []) + OfPrio(cs, prio)
  {
    assert ([c] + cs)[1..] == cs;
  }

  lemma {:induction false} InsertOfPrio(cs: seq<Client>, c: Client, prio: nat)
    ensures OfPrio(Insert(cs, c), prio) == (if c.prio == prio then [c] else []) + OfPrio(cs, prio)
  {
    if cs == [] || c.prio >= cs[0].prio {
      hide OfPrio;
      OfPrioCons(c, cs, prio);
    } else {
      InsertOfPrio(cs[1..], c, prio);
      assert cs == [cs[0]] + cs[1..];
      hide OfPrio;
      OfPrioCons(cs[0], Insert(cs[1..], c), prio);
      OfPrioCons(cs[0], cs[1..], prio);
    }
  }

  lemma {:induction false} InsertAddsOne(cs: seq<Client>, c: Client)
    ensures multiset(Insert(cs, c)) == multiset(cs) + multiset{c}
  {
    if cs == [] || c.prio >= cs[0].prio {
    } else {
      InsertAddsOne(cs[1..], c);
      assert cs == [cs[0]] + cs[1..];
    }
  }

  lemma StepRegisters(s: State, a: Action, c: nat)
    requires Shaped(s) && Step(s, a).Some? && c < |s.queues|
    ensures var t := Step(s, a).value;
            && Shaped(t) && |t.queues| == |s.queues|
            && t.clients[c] == if a.Register? && a.ctx == c then Insert(s.clients[c], a.client) else s.clients[c]
  {
    hide Insert;
    if !(a.Register? && a.ctx == c) {
      hide ToldBetween;
      StepTells(s, a, c);
      ListStays(s, Step(s, a).value, c);
    }
  }

  lemma ListStays(s: State, t: State, c: nat)
    requires Shaped(s) && Shaped(t) && c < |s.queues| == |t.queues| && ToldBetween(s, t, c)
    ensures t.clients[c] == s.clients[c]
  {
  }

  /**
   Registration: after any run a context's clients are those it had and those registered with it, each once for each
   call; among clients of one priority the one registered last comes first.
   */
  lemma {:induction false} RunRegisters(s: State, actions: seq<Action>, c: nat)
    requires Shaped(s) && Run(s, actions).Some? && c < |s.queues|
    ensures var t := Run(s, actions).value;
            && Shaped(t) && |t.queues| == |s.queues|
            && multiset(t.clients[c]) == multiset(s.clients[c]) + multiset(Registered(actions, c))
            && forall prio :: OfPrio(t.clients[c], prio)
                              == Reversed(OfPrio(Registered(actions, c), prio)) + OfPrio(s.clients[c], prio)
    decreases |actions|
  {
    hide Step, Insert;
    if actions != [] {
      var a, t, u := actions[0], Step(s, actions[0]).value, Run(s, actions).value;
      StepRegisters(s, a, c);
      RunRegisters(t, actions[1..], c);
      var rest := Registered(actions[1..], c);
      if a.Register? && a.ctx == c {
        InsertAddsOne(s.clients[c], a.client);
        forall prio ensures OfPrio(u.clients[c], prio)
                            == Reversed(OfPrio([a.client] + rest, prio)) + OfPrio(s.clients[c], prio)
        {
          InsertOfPrio(s.clients[c], a.client, prio);
          FirstOfPrio(a.client, rest, prio, OfPrio(s.clients[c], prio));
        }
      } else {
        assert Registered(actions, c) == rest;
      }
    }
  }

  lemma FirstOfPrio(client: Client, rest: seq<Client>, prio: nat, cs: seq<Client>)
    ensures Reversed(OfPrio([client] + rest, prio)) + cs
            == Reversed(OfPrio(rest, prio)) + ((if client.prio == prio then [client] else []) + cs)
  {
    var all := [client] + rest;
    assert all[1..] == rest;
    if client.prio == prio {
      assert OfPrio(all, prio)[1..] == OfPrio(rest, prio);
    } else {
      assert OfPrio(all, prio) == OfPrio(rest, prio);
    }
  }
}
