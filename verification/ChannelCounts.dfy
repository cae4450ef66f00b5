/**
 Virtual channels and reference counts: activating a network takes a channel and a reference to its image and constants,
 deactivating gives them back. The device answers every command as it likes.
 */
module ChannelCounts {
  import opened Wrappers
  import opened ByteCodec
  import opened FiniteSets

  const MAX_VCID := 15
  const VC_RESERVATION_ID_SKIP := 0xFE
  const ACTIVATION_RETRY_COUNT := 5
  const DEACTIVATION_RETRY_COUNT := 5

  /** The device's answer to an activation. */
  datatype ActivateReply =
    | NoDevice
    | Unsent(status: Status)
    | BadResponse
    | UnderRestart
    | Refused
    | Granted(vcid: U32)

  /** The device's answer to a deactivation; a command that was not sent may still report a restart. */
  datatype DeactivateReply =
    | DeviceGone
    | NotSent(status: Status, restart: bool)
    | BadAnswer
    | Rejected
    | Done

  /** What a network refers to: an image, or constants. */
  datatype Resource = Image(id: nat) | Constants(id: nat)

  datatype Network = Network(vcid: U32, image: Resource, constants: Option<Resource>, failed: bool)

  /** Channels with their reference counts, networks by handle, and the counts of the loaded images and constants. */
  datatype World = World(vcMap: map<U32, U32>, networks: map<nat, Network>, refs: map<Resource, U32>)

  function Increased(n: U32): U32 { (n + 1) % TWO32 }

  function Decreased(n: U32): U32 { (n + TWO32 - 1) % TWO32 }

  // ------------------------------------------------------------------------------------------------
  // Activation
  // ------------------------------------------------------------------------------------------------

  /** Registers a channel; an ID that is in use is refused, unless it is the reserved one. */
  function CreateVC(vcMap: map<U32, U32>, vcid: U32): (map<U32, U32>, Status) {
    if vcid !in vcMap then (vcMap[vcid := 0], Success)
    else if vcid == VC_RESERVATION_ID_SKIP then (vcMap, Success)
    else (vcMap, Error)
  }

  /** One activation command. */
  function DeviceActivate(vcMap: map<U32, U32>, reply: ActivateReply): (map<U32, U32>, Status) {
    match reply
    case NoDevice => (vcMap, DevError)
    case Unsent(status) => (vcMap, if status == Success then Error else status)
    case BadResponse => (vcMap, Inval)
    case UnderRestart => (vcMap, Again)
    case Refused => (vcMap, DevError)
    case Granted(vcid) =>
      if vcid > MAX_VCID then (vcMap, Inval)
      else
        var (after, status) := CreateVC(vcMap, vcid);
        if status == Success && vcid in after then (after[vcid := Increased(after[vcid])], Success) else (after, status)
  }

  /** The activation commands from the k-th on: repeated while the device asks for it, five in all. */
  function ActivateFrom(vcMap: map<U32, U32>, replies: nat -> ActivateReply, k: nat): (map<U32, U32>, Status, nat)
    requires k < ACTIVATION_RETRY_COUNT
    decreases ACTIVATION_RETRY_COUNT - k
  {
    var (after, status) := DeviceActivate(vcMap, replies(k));
    if status == Again && k + 1 < ACTIVATION_RETRY_COUNT then ActivateFrom(after, replies, k + 1)
    else (after, status, k)
  }

  function Raise(refs: map<Resource, U32>, r: Resource): map<Resource, U32> {
    if r in refs then refs[r := Increased(refs[r])] else refs
  }

  function Lower(refs: map<Resource, U32>, r: Resource): map<Resource, U32> {
    if r in refs then refs[r := Decreased(refs[r])] else refs
  }

  function RaiseAll(refs: map<Resource, U32>, net: Network): map<Resource, U32> {
    var raised := Raise(refs, net.image);
    if net.constants.Some? then Raise(raised, net.constants.value) else raised
  }

  function LowerAll(refs: map<Resource, U32>, net: Network): map<Resource, U32> {
    var lowered := Lower(refs, net.image);
    if net.constants.Some? then Lower(lowered, net.constants.value) else lowered
  }

  /** Activates a network under handle `nn`; the references are taken even where no network object results. */
  function Activate(w: World, nn: nat, image: Resource, constants: Option<Resource>, replies: nat -> ActivateReply,
                    factory: bool): (World, Status)
  {
    var (vcMap, status, k) := ActivateFrom(w.vcMap, replies, 0);
    if status != Success || !replies(k).Granted? then (w.(vcMap := vcMap), status)
    else
      var net := Network(replies(k).vcid, image, constants, false);
      (World(vcMap, if factory then w.networks[nn := net] else w.networks, RaiseAll(w.refs, net)),
       if factory then Success else NoMem)
  }

  // ------------------------------------------------------------------------------------------------
  // Deactivation
  // ------------------------------------------------------------------------------------------------

  /** The status of one deactivation command that reached the device's interface. */
  function ReplyStatus(reply: DeactivateReply): Status {
    match reply
    case DeviceGone => DevError
    case NotSent(status, restart) => if restart then Again else if status == Success then Error else status
    case BadAnswer => Inval
    case Rejected => DevError
    case Done => Success
  }

  /** One deactivation command: the channel's entry is taken out, and put back when the command fails. */
  function DeviceDeactivate(vcMap: map<U32, U32>, vcid: U32, teardown: bool, reply: DeactivateReply):
    (map<U32, U32>, Status)
  {
    if reply.DeviceGone? then (vcMap, DevError)
    else if !teardown then (vcMap, ReplyStatus(reply))
    else if vcid !in vcMap then (vcMap, Error)
    else
      var entry, without := vcMap[vcid], vcMap - {vcid};
      if reply.Done? then (without, Success) else (without[vcid := entry], ReplyStatus(reply))
  }

  function DeactivateFrom(vcMap: map<U32, U32>, vcid: U32, teardown: bool, replies: nat -> DeactivateReply, k: nat):
    (map<U32, U32>, Status)
    requires k < DEACTIVATION_RETRY_COUNT
    decreases DEACTIVATION_RETRY_COUNT - k
  {
    var (after, status) := DeviceDeactivate(vcMap, vcid, teardown, replies(k));
    if status == Again && k + 1 < DEACTIVATION_RETRY_COUNT then DeactivateFrom(after, vcid, teardown, replies, k + 1)
    else (after, status)
  }

  /** Deactivates a network: the channel's count goes down first, the other counts only on success. */
  function Deactivate(w: World, nn: nat, replies: nat -> DeactivateReply): (World, Status)
    requires nn in w.networks && w.networks[nn].vcid in w.vcMap
  {
    var net := w.networks[nn];
    var count := Decreased(w.vcMap[net.vcid]);
    var teardown := net.vcid != VC_RESERVATION_ID_SKIP && count == 0;
    var (vcMap, status) := DeactivateFrom(w.vcMap[net.vcid := count], net.vcid, teardown, replies, 0);
    if status != Success then (World(vcMap, w.networks[nn := net.(failed := true)], w.refs), status)
    else (World(vcMap, w.networks - {nn}, LowerAll(w.refs, net)), Success)
  }

  // ------------------------------------------------------------------------------------------------
  // Loading and unloading
  // ------------------------------------------------------------------------------------------------

  function Load(w: World, r: Resource): World {
    if r in w.refs then w else w.(refs := w.refs[r := 0])
  }

  /** The object goes whatever the device answers. */
  function Unload(w: World, r: Resource, device: Status): (World, Status)
    requires r in w.refs
  {
    if w.refs[r] != 0 then (w, Busy) else (w.(refs := w.refs - {r}), device)
  }

  // ------------------------------------------------------------------------------------------------
  // Conservation
  // ------------------------------------------------------------------------------------------------

  predicate Uses(net: Network, r: Resource) { net.image == r || net.constants == Some(r) }

  /** The live networks that use an image or constants. */
  function UsersOf(networks: map<nat, Network>, r: Resource): set<nat> {
    set n | n in networks && Uses(networks[n], r)
  }

  /** An image and constants, both loaded. */
  predicate Loaded(refs: map<Resource, U32>, image: Resource, constants: Option<Resource>) {
    && image.Image? && image in refs
    && (constants.Some? ==> constants.value.Constants? && constants.value in refs)
  }

  /** The channels are those of the live networks, one each, with one reference unless its deactivation failed. */
  predicate ChannelsAgree(vcMap: map<U32, U32>, networks: map<nat, Network>) {
    && (forall n :: n in networks ==>
          var v := networks[n].vcid; v <= MAX_VCID && v in vcMap && vcMap[v] == if networks[n].failed then 0 else 1)
    && (forall m, n :: m in networks && n in networks && m != n ==> networks[m].vcid != networks[n].vcid)
    && (forall v :: v in vcMap ==> exists n :: n in networks && networks[n].vcid == v)
  }

  /** Each count is the number of live networks that use the image or the constants. */
  predicate CountsAgree(networks: map<nat, Network>, refs: map<Resource, U32>) {
    && (forall r :: r in refs ==> refs[r] == |UsersOf(networks, r)|)
    && (forall n :: n in networks ==> Loaded(refs, networks[n].image, networks[n].constants))
  }

  predicate Consistent(w: World) { ChannelsAgree(w.vcMap, w.networks) && CountsAgree(w.networks, w.refs) }

  /** The channels of some networks. */
  function ChannelsOf(networks: map<nat, Network>, handles: set<nat>): set<int> {
    set n | n in handles && n in networks :: networks[n].vcid
  }

  /** Channels below the limit are too few for a count to wrap. */
  lemma FewUsers(vcMap: map<U32, U32>, networks: map<nat, Network>, r: Resource)
    requires ChannelsAgree(vcMap, networks)
    ensures |UsersOf(networks, r)| <= MAX_VCID + 1
  {
    SameSize(vcMap, networks, UsersOf(networks, r));
    SubsetSize(ChannelsOf(networks, UsersOf(networks, r)), Below(MAX_VCID + 1));
  }

  lemma {:induction false} SameSize(vcMap: map<U32, U32>, networks: map<nat, Network>, handles: set<nat>)
    requires ChannelsAgree(vcMap, networks) && handles <= networks.Keys
    ensures |handles| == |ChannelsOf(networks, handles)|
    decreases |handles|
  {
    if handles != {} {
      var n :| n in handles;
      SameSize(vcMap, networks, handles - {n});
      assert ChannelsOf(networks, handles) == ChannelsOf(networks, handles - {n}) + {networks[n].vcid};
    }
  }

  lemma AddUser(networks: map<nat, Network>, nn: nat, net: Network, r: Resource)
    requires nn !in networks
    ensures |UsersOf(networks[nn := net], r)| == |UsersOf(networks, r)| + if Uses(net, r) then 1 else 0
  {
    hide Uses;
    assert UsersOf(networks[nn := net], r) == UsersOf(networks, r) + if Uses(net, r) then {nn} else {};
  }

  lemma RemoveUser(networks: map<nat, Network>, nn: nat, r: Resource)
    requires nn in networks
    ensures |UsersOf(networks - {nn}, r)| == |UsersOf(networks, r)| - if Uses(networks[nn], r) then 1 else 0
  {
    var before := networks - {nn};
    assert before[nn := networks[nn]] == networks;
    AddUser(before, nn, networks[nn], r);
  }

  // ------------------------------------------------------------------------------------------------
  // What the commands do to the channels
  // ------------------------------------------------------------------------------------------------

  /** A failed activation leaves the channels alone; a successful one adds a channel that was not in use. */
  lemma {:induction false} ActivateChannels(vcMap: map<U32, U32>, replies: nat -> ActivateReply, k: nat)
    requires k < ACTIVATION_RETRY_COUNT
    ensures var (after, status, n) := ActivateFrom(vcMap, replies, k);
            if status == Success then
              replies(n).Granted? && replies(n).vcid <= MAX_VCID && replies(n).vcid !in vcMap
              && after == vcMap[replies(n).vcid := 1]
            else after == vcMap
    decreases ACTIVATION_RETRY_COUNT - k
  {
    var (after, status) := DeviceActivate(vcMap, replies(k));
    if status == Again && k + 1 < ACTIVATION_RETRY_COUNT { ActivateChannels(after, replies, k + 1); }
  }

  /** A failed deactivation leaves the channels as they were; a successful teardown removes the channel. */
  lemma {:induction false} DeactivateChannels(vcMap: map<U32, U32>, vcid: U32, teardown: bool,
                                              replies: nat -> DeactivateReply, k: nat)
    requires k < DEACTIVATION_RETRY_COUNT && vcid in vcMap
    ensures var (after, status) := DeactivateFrom(vcMap, vcid, teardown, replies, k);
            after == if status == Success && teardown then vcMap - {vcid} else vcMap
    decreases DEACTIVATION_RETRY_COUNT - k
  {
    var (after, status) := DeviceDeactivate(vcMap, vcid, teardown, replies(k));
    assert (vcMap - {vcid})[vcid := vcMap[vcid]] == vcMap;
    if status == Again && k + 1 < DEACTIVATION_RETRY_COUNT {
      DeactivateChannels(after, vcid, teardown, replies, k + 1);
    }
  }

  // ------------------------------------------------------------------------------------------------
  // Every call keeps the counts
  // ------------------------------------------------------------------------------------------------

  lemma NewChannelAgrees(vcMap: map<U32, U32>, networks: map<nat, Network>, nn: nat, net: Network)
    requires ChannelsAgree(vcMap, networks) && nn !in networks
    requires net.vcid <= MAX_VCID && net.vcid !in vcMap && !net.failed
    ensures ChannelsAgree(vcMap[net.vcid := 1], networks[nn := net])
  {
    var after, channels := networks[nn := net], vcMap[net.vcid := 1];
    forall v | v in channels ensures exists n :: n in after && after[n].vcid == v {
      if v == net.vcid {
        assert after[nn].vcid == v;
      } else {
        var n :| n in networks && networks[n].vcid == v;
        assert after[n].vcid == v;
      }
    }
  }

  lemma NewNetworkCounts(vcMap: map<U32, U32>, networks: map<nat, Network>, refs: map<Resource, U32>, nn: nat,
                         net: Network)
    requires ChannelsAgree(vcMap, networks) && CountsAgree(networks, refs) && nn !in networks
    requires Loaded(refs, net.image, net.constants)
    ensures CountsAgree(networks[nn := net], RaiseAll(refs, net))
  {
    hide ChannelsAgree, UsersOf;
    var after := RaiseAll(refs, net);
    forall r | r in after ensures after[r] == |UsersOf(networks[nn := net], r)| {
      AddUser(networks, nn, net, r);
      FewUsers(vcMap, networks, r);
    }
  }

  /** A channel in the map that no live network runs on. */
  predicate Stranded(w: World, v: U32) {
    v in w.vcMap && forall n :: n in w.networks ==> w.networks[n].vcid != v
  }

  lemma StrandedIsInconsistent(w: World, v: U32)
    requires Stranded(w, v)
    ensures !Consistent(w)
  {
  }

  /** Activating keeps the counts exactly unless a granted activation yields no network object. */
  lemma ActivateKeepsIff(w: World, nn: nat, image: Resource, constants: Option<Resource>,
                         replies: nat -> ActivateReply, factory: bool)
    requires Consistent(w) && nn !in w.networks && Loaded(w.refs, image, constants)
    ensures Consistent(Activate(w, nn, image, constants, replies, factory).0)
       <==> factory || ActivateFrom(w.vcMap, replies, 0).1 != Success
  {
    var (vcMap, status, k) := ActivateFrom(w.vcMap, replies, 0);
    ActivateChannels(w.vcMap, replies, 0);
    if status == Success {
      var net := Network(replies(k).vcid, image, constants, false);
      if factory {
        hide ActivateFrom, ChannelsAgree, CountsAgree, Loaded, RaiseAll;
        NewChannelAgrees(w.vcMap, w.networks, nn, net);
        NewNetworkCounts(w.vcMap, w.networks, w.refs, nn, net);
      } else {
        hide ActivateFrom, CountsAgree, Loaded, RaiseAll;
        StrandedIsInconsistent(Activate(w, nn, image, constants, replies, factory).0, net.vcid);
      }
    }
  }

  lemma OldChannelAgrees(vcMap: map<U32, U32>, networks: map<nat, Network>, nn: nat)
    requires ChannelsAgree(vcMap, networks) && nn in networks
    ensures ChannelsAgree(vcMap - {networks[nn].vcid}, networks - {nn})
  {
    var v0, fewer := networks[nn].vcid, networks - {nn};
    var channels := vcMap - {v0};
    forall n | n in fewer
      ensures fewer[n].vcid <= MAX_VCID && fewer[n].vcid in channels
      ensures channels[fewer[n].vcid] == if fewer[n].failed then 0 else 1
    {
      assert n in networks && fewer[n] == networks[n] && networks[n].vcid != v0;
    }
    forall m, n | m in fewer && n in fewer && m != n ensures fewer[m].vcid != fewer[n].vcid {
      assert m in networks && n in networks;
    }
    forall v | v in channels ensures exists n :: n in fewer && fewer[n].vcid == v {
      var n :| n in networks && networks[n].vcid == v;
      assert fewer[n].vcid == v;
    }
  }

  lemma MarkedChannelAgrees(vcMap: map<U32, U32>, networks: map<nat, Network>, nn: nat)
    requires ChannelsAgree(vcMap, networks) && nn in networks
    ensures ChannelsAgree(vcMap[networks[nn].vcid := 0], networks[nn := networks[nn].(failed := true)])
  {
    var marked, channels := networks[nn := networks[nn].(failed := true)], vcMap[networks[nn].vcid := 0];
    forall v | v in channels ensures exists n :: n in marked && marked[n].vcid == v {
      var n :| n in networks && networks[n].vcid == v;
      assert marked[n].vcid == v;
    }
  }

  lemma OldNetworkCounts(vcMap: map<U32, U32>, networks: map<nat, Network>, refs: map<Resource, U32>, nn: nat)
    requires ChannelsAgree(vcMap, networks) && CountsAgree(networks, refs) && nn in networks
    ensures CountsAgree(networks - {nn}, LowerAll(refs, networks[nn]))
  {
    hide ChannelsAgree, UsersOf;
    var after, fewer := LowerAll(refs, networks[nn]), networks - {nn};
    forall r | r in after ensures after[r] == |UsersOf(fewer, r)| {
      RemoveUser(networks, nn, r);
      FewUsers(vcMap, networks, r);
    }
  }

  lemma MarkedNetworkCounts(networks: map<nat, Network>, refs: map<Resource, U32>, nn: nat)
    requires CountsAgree(networks, refs) && nn in networks
    ensures CountsAgree(networks[nn := networks[nn].(failed := true)], refs)
  {
    var marked := networks[nn := networks[nn].(failed := true)];
    forall r ensures UsersOf(marked, r) == UsersOf(networks, r) {}
    hide UsersOf;
  }

  /** Deactivating a network with the only reference to its channel: a success tears the channel down. */
  lemma FirstDeactivation(w: World, nn: nat, replies: nat -> DeactivateReply)
    requires nn in w.networks && w.networks[nn].vcid in w.vcMap
    requires w.networks[nn].vcid <= MAX_VCID && w.vcMap[w.networks[nn].vcid] == 1
    ensures var (w', status) := Deactivate(w, nn, replies); var net := w.networks[nn];
            w' == if status == Success then World(w.vcMap - {net.vcid}, w.networks - {nn}, LowerAll(w.refs, net))
                  else World(w.vcMap[net.vcid := 0], w.networks[nn := net.(failed := true)], w.refs)
  {
    hide DeactivateFrom, LowerAll;
    var v: U32 := w.networks[nn].vcid;
    DeactivateChannels(w.vcMap[v := 0], v, true, replies, 0);
    assert w.vcMap[v := 0] - {v} == w.vcMap - {v};
  }

  /** Deactivating a network for the first time keeps the counts, whether it succeeds or fails. */
  lemma FirstDeactivationKeeps(w: World, nn: nat, replies: nat -> DeactivateReply)
    requires Consistent(w) && nn in w.networks && !w.networks[nn].failed
    ensures w.networks[nn].vcid in w.vcMap && Consistent(Deactivate(w, nn, replies).0)
  {
    var v: U32 := w.networks[nn].vcid;
    assert v in w.vcMap && w.vcMap[v] == 1 && v <= MAX_VCID;
    hide Deactivate, ChannelsAgree, CountsAgree, LowerAll;
    FirstDeactivation(w, nn, replies);
    OldChannelAgrees(w.vcMap, w.networks, nn);
    MarkedChannelAgrees(w.vcMap, w.networks, nn);
    OldNetworkCounts(w.vcMap, w.networks, w.refs, nn);
    MarkedNetworkCounts(w.networks, w.refs, nn);
  }

  /** A network whose deactivation failed has a channel of its own, with count zero. */
  lemma FailedChannel(w: World, nn: nat)
    requires Consistent(w) && nn in w.networks && w.networks[nn].failed
    ensures var v := w.networks[nn].vcid;
            && v <= MAX_VCID && v in w.vcMap && w.vcMap[v] == 0
            && forall n :: n in w.networks && n != nn ==> w.networks[n].vcid != v
  {
  }

  /**
   Repeating a failed deactivation takes the channel's count below zero. A success then removes the network and leaves
   the channel behind; another failure keeps the network with the wrong count.
   */
  lemma RepeatedDeactivation(w: World, nn: nat, replies: nat -> DeactivateReply)
    requires Consistent(w) && nn in w.networks && w.networks[nn].failed
    ensures w.networks[nn].vcid in w.vcMap
    ensures var (w', status) := Deactivate(w, nn, replies); var v := w.networks[nn].vcid;
            && w'.vcMap == w.vcMap[v := TWO32 - 1]
            && (status == Success ==> w'.networks == w.networks - {nn} && Stranded(w', v))
            && (status != Success ==> w'.networks == w.networks && w'.refs == w.refs)
  {
    hide Consistent, LowerAll, DeactivateFrom;
    var v: U32 := w.networks[nn].vcid;
    FailedChannel(w, nn);
    DeactivateChannels(w.vcMap[v := TWO32 - 1], v, false, replies, 0);
    assert w.networks[nn := w.networks[nn].(failed := true)] == w.networks;
  }

  /** Deactivating keeps the counts exactly when no earlier deactivation of the network failed. */
  lemma DeactivateKeepsIff(w: World, nn: nat, replies: nat -> DeactivateReply)
    requires Consistent(w) && nn in w.networks
    ensures w.networks[nn].vcid in w.vcMap
    ensures Consistent(Deactivate(w, nn, replies).0) <==> !w.networks[nn].failed
  {
    if w.networks[nn].failed {
      hide CountsAgree, Deactivate;
      RepeatedDeactivation(w, nn, replies);
      var (w', status) := Deactivate(w, nn, replies);
      if status == Success { StrandedIsInconsistent(w', w.networks[nn].vcid); }
    } else {
      FirstDeactivationKeeps(w, nn, replies);
    }
  }

  // ------------------------------------------------------------------------------------------------
  // Runs
  // ------------------------------------------------------------------------------------------------

  datatype Call =
    | LoadCall(r: Resource)
    | UnloadCall(r: Resource, device: Status)
    | ActivateCall(nn: nat, image: Resource, constants: Option<Resource>, activateReplies: nat -> ActivateReply,
                   factory: bool)
    | DeactivateCall(nn: nat, deactivateReplies: nat -> DeactivateReply)

  /** The callers' side: handles are fresh, and what is used, unloaded or deactivated is there. */
  predicate Possible(w: World, call: Call) {
    match call
    case LoadCall(_) => true
    case UnloadCall(r, _) => r in w.refs
    case ActivateCall(nn, image, constants, _, _) => nn !in w.networks && Loaded(w.refs, image, constants)
    case DeactivateCall(nn, _) => nn in w.networks && w.networks[nn].vcid in w.vcMap
  }

  /** No failed deactivation is repeated, and a granted activation yields a network object. */
  predicate Clean(w: World, call: Call) {
    match call
    case ActivateCall(_, _, _, replies, factory) => factory || ActivateFrom(w.vcMap, replies, 0).1 != Success
    case DeactivateCall(nn, _) => nn in w.networks && !w.networks[nn].failed
    case _ => true
  }

  function Perform(w: World, call: Call): World
    requires Possible(w, call)
  {
    match call
    case LoadCall(r) => Load(w, r)
    case UnloadCall(r, device) => Unload(w, r, device).0
    case ActivateCall(nn, image, constants, replies, factory) =>
      Activate(w, nn, image, constants, replies, factory).0
    case DeactivateCall(nn, replies) => Deactivate(w, nn, replies).0
  }

  /** The worlds after each call of a run; it stops in front of a call that is not possible. */
  function Run(w: World, calls: seq<Call>): (ws: seq<World>)
    ensures |ws| <= |calls|
    decreases |calls|
  {
    if calls == [] || !Possible(w, calls[0]) then []
    else [Perform(w, calls[0])] + Run(Perform(w, calls[0]), calls[1..])
  }

  /** The calls of a run that take place are clean. */
  predicate CleanRun(w: World, calls: seq<Call>)
    decreases |calls|
  {
    calls != [] && Possible(w, calls[0]) ==> Clean(w, calls[0]) && CleanRun(Perform(w, calls[0]), calls[1..])
  }

  lemma LoadKeeps(w: World, r: Resource)
    requires Consistent(w)
    ensures Consistent(Load(w, r))
  {
    hide ChannelsAgree;
    if r !in w.refs {
      forall n | n in w.networks ensures !Uses(w.networks[n], r) {
        assert Loaded(w.refs, w.networks[n].image, w.networks[n].constants);
      }
      assert UsersOf(w.networks, r) == {};
    }
  }

  /** Unloading is refused exactly while a live network uses the image or the constants. */
  lemma UnloadIsRefusedIff(w: World, r: Resource, device: Status)
    requires Consistent(w) && r in w.refs && device != Busy
    ensures Unload(w, r, device).1 == Busy <==> exists n :: n in w.networks && Uses(w.networks[n], r)
    ensures Consistent(Unload(w, r, device).0)
  {
    hide ChannelsAgree;
    var users := UsersOf(w.networks, r);
    assert forall n :: n in users <==> n in w.networks && Uses(w.networks[n], r);
    if users == {} {
      NothingUsed(w.networks, w.refs, r);
    } else {
      var n :| n in users;
      assert |users| > 0;
    }
  }

  lemma NothingUsed(networks: map<nat, Network>, refs: map<Resource, U32>, r: Resource)
    requires CountsAgree(networks, refs) && UsersOf(networks, r) == {}
    ensures CountsAgree(networks, refs - {r})
  {
    forall n | n in networks ensures Loaded(refs - {r}, networks[n].image, networks[n].constants) {
      assert Loaded(refs, networks[n].image, networks[n].constants);
      assert n !in UsersOf(networks, r);
    }
    hide UsersOf;
  }

  /** A call keeps the counts exactly when it is clean. */
  lemma CallKeepsIff(w: World, call: Call)
    requires Consistent(w) && Possible(w, call)
    ensures Consistent(Perform(w, call)) <==> Clean(w, call)
  {
    hide Consistent, Load, Unload, Activate, Deactivate, Loaded, ActivateFrom;
    match call
    case LoadCall(r) => LoadKeeps(w, r);
    case UnloadCall(r, device) => UnloadKeeps(w, r, device);
    case ActivateCall(nn, image, constants, replies, factory) =>
      ActivateKeepsIff(w, nn, image, constants, replies, factory);
    case DeactivateCall(nn, replies) => DeactivateKeepsIff(w, nn, replies);
  }

  lemma UnloadKeeps(w: World, r: Resource, device: Status)
    requires Consistent(w) && r in w.refs
    ensures Consistent(Unload(w, r, device).0)
  {
    UnloadIsRefusedIff(w, r, Success);
  }

  /**
   The channels are exactly those of the live networks, and every count is the number of live networks that use the
   image or the constants, after every call of a run if and only if no failed deactivation is repeated and every
   granted activation yields a network object.
   */
  lemma {:induction false} RunsConserveIff(w: World, calls: seq<Call>)
    requires Consistent(w)
    ensures (forall w' :: w' in Run(w, calls) ==> Consistent(w')) <==> CleanRun(w, calls)
    decreases |calls|
  {
    hide Consistent, Possible, Clean, Perform;
    if calls != [] && Possible(w, calls[0]) {
      var next := Perform(w, calls[0]);
      assert Run(w, calls)[0] == next;
      assert forall w' :: w' in Run(w, calls) <==> w' == next || w' in Run(next, calls[1..]);
      CallKeepsIff(w, calls[0]);
      if Clean(w, calls[0]) { RunsConserveIff(next, calls[1..]); }
    }
  }

  /** Nothing activated, nothing loaded. */
  lemma EmptyIsConsistent()
    ensures Consistent(World(map[], map[], map[]))
  {
  }

  /** Every live network has a channel of its own in the map, so it can be deactivated. */
  predicate Held(w: World) {
    && (forall n :: n in w.networks ==> w.networks[n].vcid <= MAX_VCID && w.networks[n].vcid in w.vcMap)
    && (forall m, n :: m in w.networks && n in w.networks && m != n ==> w.networks[m].vcid != w.networks[n].vcid)
  }

  lemma CallKeepsHeld(w: World, call: Call)
    requires Held(w) && Possible(w, call)
    ensures Held(Perform(w, call))
  {
    match call
    case ActivateCall(_, _, _, replies, _) =>
      hide ActivateFrom, Loaded, RaiseAll;
      ActivateChannels(w.vcMap, replies, 0);
    case DeactivateCall(nn, replies) =>
      hide DeactivateFrom, LowerAll;
      var net := w.networks[nn];
      var count := Decreased(w.vcMap[net.vcid]);
      DeactivateChannels(w.vcMap[net.vcid := count], net.vcid, net.vcid != VC_RESERVATION_ID_SKIP && count == 0,
                         replies, 0);
    case _ =>
  }

  /** In every run, whatever leaks, each live network keeps its channel. */
  lemma {:induction false} RunsHold(w: World, calls: seq<Call>)
    requires Held(w)
    ensures forall w' :: w' in Run(w, calls) ==> Held(w')
    decreases |calls|
  {
    hide Held, Possible, Perform;
    if calls != [] && Possible(w, calls[0]) {
      var next := Perform(w, calls[0]);
      assert forall w' :: w' in Run(w, calls) <==> w' == next || w' in Run(next, calls[1..]);
      CallKeepsHeld(w, calls[0]);
      RunsHold(next, calls[1..]);
    }
  }

  // ------------------------------------------------------------------------------------------------
  // What breaks the counts
  // ------------------------------------------------------------------------------------------------

  /** Whatever is called, a stranded channel keeps its entry, and an activation that is granted it fails. */
  lemma CallKeepsStranded(w: World, call: Call, v: U32)
    requires Stranded(w, v) && Possible(w, call)
    ensures Stranded(Perform(w, call), v) && Perform(w, call).vcMap[v] == w.vcMap[v]
    ensures DeviceActivate(w.vcMap, Granted(v)).0 == w.vcMap && DeviceActivate(w.vcMap, Granted(v)).1 != Success
  {
    match call
    case ActivateCall(_, _, _, replies, _) =>
      hide ActivateFrom, Loaded, RaiseAll;
      ActivateChannels(w.vcMap, replies, 0);
    case DeactivateCall(nn, replies) =>
      hide DeactivateFrom, LowerAll;
      var net := w.networks[nn];
      var count := Decreased(w.vcMap[net.vcid]);
      DeactivateChannels(w.vcMap[net.vcid := count], net.vcid, net.vcid != VC_RESERVATION_ID_SKIP && count == 0,
                         replies, 0);
    case _ =>
  }

  /** A stranded channel is lost for good: in every run it stays in the map, and is never granted again. */
  lemma {:induction false} StrandedForGood(w: World, calls: seq<Call>, v: U32)
    requires Stranded(w, v)
    ensures forall w' :: w' in Run(w, calls) ==>
              && Stranded(w', v) && w'.vcMap[v] == w.vcMap[v] && !Consistent(w')
              && DeviceActivate(w'.vcMap, Granted(v)).0 == w'.vcMap
              && DeviceActivate(w'.vcMap, Granted(v)).1 != Success
    decreases |calls|
  {
    hide Consistent, Possible, Perform, DeviceActivate, Stranded;
    if calls != [] && Possible(w, calls[0]) {
      var next := Perform(w, calls[0]);
      assert forall w' :: w' in Run(w, calls) <==> w' == next || w' in Run(next, calls[1..]);
      CallKeepsStranded(w, calls[0], v);
      StrandedIsRefused(next, v);
      StrandedForGood(next, calls[1..], v);
    }
  }

  lemma StrandedIsRefused(w: World, v: U32)
    requires Stranded(w, v)
    ensures v in w.vcMap && !Consistent(w)
    ensures DeviceActivate(w.vcMap, Granted(v)).0 == w.vcMap && DeviceActivate(w.vcMap, Granted(v)).1 != Success
  {
  }

  /**
   A failed deactivation that is repeated and then succeeds, after however many restarts of the device, loses the
   channel for good: its count has gone below zero, and no run grants it again.
   */
  lemma RepeatedDeactivationLeaks(w: World, nn: nat, replies: nat -> DeactivateReply, calls: seq<Call>)
    requires Consistent(w) && nn in w.networks && w.networks[nn].failed
    ensures w.networks[nn].vcid in w.vcMap
    ensures var (w', status) := Deactivate(w, nn, replies); var v := w.networks[nn].vcid;
            status == Success ==>
              && Stranded(w', v) && w'.vcMap[v] == TWO32 - 1
              && forall u :: u in Run(w', calls) ==>
                   Stranded(u, v) && u.vcMap[v] == TWO32 - 1 && DeviceActivate(u.vcMap, Granted(v)).1 != Success
  {
    hide CountsAgree, Deactivate, DeviceActivate, Consistent, Run;
    RepeatedDeactivation(w, nn, replies);
    var (w', status) := Deactivate(w, nn, replies);
    if status == Success { StrandedForGood(w', calls, w.networks[nn].vcid); }
  }

  /** Each count is the number of users, and one more for what this network would have used. */
  predicate OneTooMany(refs: map<Resource, U32>, networks: map<nat, Network>, net: Network) {
    forall r :: r in refs ==> refs[r] == |UsersOf(networks, r)| + if Uses(net, r) then 1 else 0
  }

  lemma RaisedIsOneTooMany(w: World, net: Network)
    requires Consistent(w) && Loaded(w.refs, net.image, net.constants)
    ensures RaiseAll(w.refs, net).Keys == w.refs.Keys && OneTooMany(RaiseAll(w.refs, net), w.networks, net)
  {
    hide ChannelsAgree, UsersOf;
    forall r | r in w.refs ensures |UsersOf(w.networks, r)| <= MAX_VCID + 1 { FewUsers(w.vcMap, w.networks, r); }
  }

  /** A granted activation without a network object takes a channel that no network runs on, and the references. */
  lemma FactoryFailure(w: World, nn: nat, image: Resource, constants: Option<Resource>, replies: nat -> ActivateReply)
    returns (v: U32)
    requires Consistent(w) && nn !in w.networks && Loaded(w.refs, image, constants)
    requires ActivateFrom(w.vcMap, replies, 0).1 == Success
    ensures var (w', status) := Activate(w, nn, image, constants, replies, false);
            && status == NoMem && w'.networks == w.networks && w'.refs.Keys == w.refs.Keys
            && OneTooMany(w'.refs, w.networks, Network(v, image, constants, false))
            && v <= MAX_VCID && v !in w.vcMap && w'.vcMap == w.vcMap[v := 1] && Stranded(w', v)
  {
    hide ActivateFrom, CountsAgree, RaiseAll, OneTooMany, Loaded;
    ActivateChannels(w.vcMap, replies, 0);
    v := replies(ActivateFrom(w.vcMap, replies, 0).2).vcid;
    RaisedIsOneTooMany(w, Network(v, image, constants, false));
  }

  /**
   When no network object results from a granted activation, the references to the image and the constants are one
   more than their users, and the channel is lost for good.
   */
  lemma FactoryFailureLeaks(w: World, nn: nat, image: Resource, constants: Option<Resource>,
                            replies: nat -> ActivateReply, calls: seq<Call>)
    requires Consistent(w) && nn !in w.networks && Loaded(w.refs, image, constants)
    requires ActivateFrom(w.vcMap, replies, 0).1 == Success
    ensures var (w', status) := Activate(w, nn, image, constants, replies, false);
            && status == NoMem && w'.networks == w.networks
            && exists v: U32 :: Stranded(w', v) && v !in w.vcMap && w'.vcMap == w.vcMap[v := 1]
                 && OneTooMany(w'.refs, w.networks, Network(v, image, constants, false))
                 && forall u :: u in Run(w', calls) ==>
                      Stranded(u, v) && DeviceActivate(u.vcMap, Granted(v)).1 != Success
  {
    hide *;
    var v := FactoryFailure(w, nn, image, constants, replies);
    StrandedForGood(Activate(w, nn, image, constants, replies, false).0, calls, v);
  }

  // A run that reaches a failed network, and loses its channel by deactivating it again.
  const IMAGE := Image(0)
  const EMPTY := World(map[], map[], map[])
  const LOADED := World(map[], map[], map[IMAGE := 0])
  const ACTIVE := World(map[3 := 1], map[0 := Network(3, IMAGE, None, false)], map[IMAGE := 1])
  const FAILED := World(map[3 := 0], map[0 := Network(3, IMAGE, None, true)], map[IMAGE := 1])
  const LEAKED := World(map[3 := TWO32 - 1], map[], map[IMAGE := 0])

  lemma ReachesActive(replies: nat -> ActivateReply)
    requires replies(0) == Granted(3)
    ensures var call := ActivateCall(0, IMAGE, None, replies, true);
            Possible(LOADED, call) && Perform(LOADED, call) == ACTIVE
  {
    var none: map<U32, U32> := map[];
    assert none[3 := 0][3 := 1] == map[3 := 1];
    assert DeviceActivate(none, replies(0)) == (map[3 := 1], Success);
    assert ActivateFrom(map[], replies, 0) == (map[3 := 1], Success, 0);
  }

  lemma ReachesFailed(replies: nat -> DeactivateReply)
    requires replies(0) == Rejected
    ensures Possible(ACTIVE, DeactivateCall(0, replies)) && Perform(ACTIVE, DeactivateCall(0, replies)) == FAILED
  {
    var channels: map<U32, U32> := map[3 := 0];
    assert (channels - {3})[3 := 0] == channels;
    assert DeviceDeactivate(channels, 3, true, replies(0)) == (channels, DevError);
    assert DeactivateFrom(map[3 := 0], 3, true, replies, 0) == (map[3 := 0], DevError);
  }

  lemma ReachesLeaked(replies: nat -> DeactivateReply)
    requires replies(0) == Done
    ensures Possible(FAILED, DeactivateCall(0, replies)) && Perform(FAILED, DeactivateCall(0, replies)) == LEAKED
  {
    assert DeviceDeactivate(map[3 := TWO32 - 1], 3, false, replies(0)) == (map[3 := TWO32 - 1], Success);
    assert DeactivateFrom(map[3 := TWO32 - 1], 3, false, replies, 0) == (map[3 := TWO32 - 1], Success);
  }

  lemma RunStep(w: World, call: Call, calls: seq<Call>)
    requires Possible(w, call)
    ensures Run(w, [call] + calls) == [Perform(w, call)] + Run(Perform(w, call), calls)
  {
    hide Possible, Perform;
    assert ([call] + calls)[1..] == calls;
  }

  /** The loss happens: load, activate, a rejected deactivation, and a second one that is answered. */
  lemma LeakIsReachable(granted: nat -> ActivateReply, rejected: nat -> DeactivateReply, done: nat -> DeactivateReply)
    requires granted(0) == Granted(3) && rejected(0) == Rejected && done(0) == Done
    ensures Run(EMPTY, [LoadCall(IMAGE)] + ([ActivateCall(0, IMAGE, None, granted, true)]
                       + ([DeactivateCall(0, rejected)] + ([DeactivateCall(0, done)] + []))))
            == [LOADED, ACTIVE, FAILED, LEAKED]
    ensures Stranded(LEAKED, 3)
  {
    hide Perform, Run;
    var activate, fail, again :=
      ActivateCall(0, IMAGE, None, granted, true), DeactivateCall(0, rejected), DeactivateCall(0, done);
    assert Perform(EMPTY, LoadCall(IMAGE)) == LOADED by { ReachesLoaded(); }
    ReachesActive(granted);
    ReachesFailed(rejected);
    ReachesLeaked(done);
    RunStep(EMPTY, LoadCall(IMAGE), [activate] + ([fail] + ([again] + [])));
    RunStep(LOADED, activate, [fail] + ([again] + []));
    RunStep(ACTIVE, fail, [again] + []);
    RunStep(FAILED, again, []);
    assert Run(LEAKED, []) == [] by { NothingRuns(LEAKED); }
  }

  lemma ReachesLoaded()
    ensures Perform(EMPTY, LoadCall(IMAGE)) == LOADED
  {
  }

  lemma NothingRuns(w: World)
    ensures Run(w, []) == []
  {
  }
}
