/**
 The channel map and the counts as fields: entries are inserted, taken out and restored, and commands retried in loops.
 */
module ChannelDevice {
  import opened Wrappers
  import opened ByteCodec
  import opened ChannelCounts

  class Runtime {
    var vcMap: map<U32, U32>
    var networks: map<nat, Network>
    var refs: map<Resource, U32>

    ghost function AsWorld(): World
      reads this
    {
      World(vcMap, networks, refs)
    }

    constructor ()
      ensures AsWorld() == World(map[], map[], map[]) && Consistent(AsWorld())
    {
      vcMap, networks, refs := map[], map[], map[];
      new;
      EmptyIsConsistent();
    }

    method CreateChannel(vcid: U32) returns (status: Status)
      modifies `vcMap
      ensures (vcMap, status) == CreateVC(old(vcMap), vcid)
    {
      if vcid !in vcMap {
        vcMap := vcMap[vcid := 0];
      } else if vcid != VC_RESERVATION_ID_SKIP {
        return Error;
      }
      return Success;
    }

    /** One activation command and what its answer leads to. */
    method ActivateOnce(reply: ActivateReply) returns (status: Status)
      modifies `vcMap
      ensures (vcMap, status) == DeviceActivate(old(vcMap), reply)
    {
      match reply
      case NoDevice => status := DevError;
      case Unsent(s) => status := if s == Success then Error else s;
      case BadResponse => status := Inval;
      case UnderRestart => status := Again;
      case Refused => status := DevError;
      case Granted(vcid) =>
        if vcid > MAX_VCID { return Inval; }
        status := CreateChannel(vcid);
        if status != Success { return; }
        vcMap := vcMap[vcid := Increased(vcMap[vcid])];
    }

    /** Retries while the device restarts, then builds the network and takes the references. */
    method ActivateNetwork(nn: nat, image: Resource, constants: Option<Resource>, replies: nat -> ActivateReply,
                           factory: bool)
      returns (status: Status)
      modifies this
      ensures (AsWorld(), status) == Activate(old(AsWorld()), nn, image, constants, replies, factory)
    {
      hide DeviceActivate, RaiseAll;
      var retryCount, k := ACTIVATION_RETRY_COUNT, 0;
      status := Again;
      while true
        invariant 0 <= k < ACTIVATION_RETRY_COUNT && retryCount == ACTIVATION_RETRY_COUNT - k
        invariant networks == old(networks) && refs == old(refs)
        invariant ActivateFrom(vcMap, replies, k) == ActivateFrom(old(vcMap), replies, 0)
        decreases retryCount
      {
        retryCount := retryCount - 1;
        status := ActivateOnce(replies(k));
        if status != Again || retryCount == 0 { break; }
        k := k + 1;
      }
      assert ActivateFrom(old(vcMap), replies, 0) == (vcMap, status, k);
      if status != Success || !replies(k).Granted? { return; }
      var net := Network(replies(k).vcid, image, constants, false);
      if factory { networks := networks[nn := net]; } else { status := NoMem; }
      refs := RaiseAll(refs, net);
    }

    /** One deactivation command: the entry is taken out of the map and restored on failure. */
    method DeactivateOnce(vcid: U32, teardown: bool, reply: DeactivateReply) returns (status: Status)
      modifies `vcMap
      ensures (vcMap, status) == DeviceDeactivate(old(vcMap), vcid, teardown, reply)
    {
      if reply.DeviceGone? { return DevError; }
      var saved: U32 := 0;
      if teardown {
        if vcid !in vcMap { return Error; }
        saved := vcMap[vcid];
        vcMap := vcMap - {vcid};
      }
      status := ReplyStatus(reply);
      if !reply.Done? && teardown { vcMap := vcMap[vcid := saved]; }
    }

    method DeactivateNetwork(nn: nat, replies: nat -> DeactivateReply) returns (status: Status)
      requires nn in networks && networks[nn].vcid in vcMap
      modifies this
      ensures (AsWorld(), status) == Deactivate(old(AsWorld()), nn, replies)
    {
      hide DeviceDeactivate, LowerAll;
      var net := networks[nn];
      vcMap := vcMap[net.vcid := Decreased(vcMap[net.vcid])];
      var teardown := net.vcid != VC_RESERVATION_ID_SKIP && vcMap[net.vcid] == 0;
      ghost var start := vcMap;
      var retryCount, k := DEACTIVATION_RETRY_COUNT, 0;
      status := Again;
      while true
        invariant 0 <= k < DEACTIVATION_RETRY_COUNT && retryCount == DEACTIVATION_RETRY_COUNT - k
        invariant networks == old(networks) && refs == old(refs)
        invariant DeactivateFrom(vcMap, net.vcid, teardown, replies, k)
                  == DeactivateFrom(start, net.vcid, teardown, replies, 0)
        decreases retryCount
      {
        retryCount := retryCount - 1;
        status := DeactivateOnce(net.vcid, teardown, replies(k));
        if status != Again || retryCount == 0 { break; }
        k := k + 1;
      }
      assert DeactivateFrom(start, net.vcid, teardown, replies, 0) == (vcMap, status);
      if status != Success {
        networks := networks[nn := net.(failed := true)];
      } else {
        refs := LowerAll(refs, net);
        networks := networks - {nn};
      }
    }

    method UnloadResource(r: Resource, device: Status) returns (status: Status)
      requires r in refs
      modifies `refs
      ensures (AsWorld(), status) == Unload(old(AsWorld()), r, device)
    {
      if refs[r] != 0 { return Busy; }
      refs := refs - {r};
      return device;
    }
  }
}
