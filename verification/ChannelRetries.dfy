/** What an activation and a deactivation come to: which of the device's answers decides, and what follows from it. */
module ChannelRetries {
  import opened Wrappers
  import opened ByteCodec
  import opened ChannelCounts

  /** The answers after which an activation is tried again. */
  predicate TriedAgain(reply: ActivateReply) { reply.UnderRestart? || reply == Unsent(Again) }

  predicate AskedAgain(reply: DeactivateReply) { reply.NotSent? && (reply.restart || reply.status == Again) }

  /** The answer that decides: the first one that asks for no other command, or the fifth. */
  predicate Decides(replies: nat -> ActivateReply, k: nat) {
    k < 5 && (forall j: nat :: j < k ==> TriedAgain(replies(j))) && (k < 4 ==> !TriedAgain(replies(k)))
  }

  predicate DecidesDown(replies: nat -> DeactivateReply, k: nat) {
    k < 5 && (forall j: nat :: j < k ==> AskedAgain(replies(j))) && (k < 4 ==> !AskedAgain(replies(k)))
  }

  /** Both counts moved by one for each use, in 32-bit arithmetic. */
  predicate Moved(refs: map<Resource, U32>, after: map<Resource, U32>, image: Resource, constants: Option<Resource>,
                  step: int)
  {
    && after.Keys == refs.Keys
    && forall r :: r in refs ==>
         after[r] == (refs[r] + (if r == image then step else 0) + (if constants == Some(r) then step else 0)) % TWO32
  }

  lemma RaisedMoved(refs: map<Resource, U32>, net: Network)
    ensures Moved(refs, RaiseAll(refs, net), net.image, net.constants, 1)
  {
  }

  lemma LoweredMoved(refs: map<Resource, U32>, net: Network)
    ensures Moved(refs, LowerAll(refs, net), net.image, net.constants, -1)
  {
  }

  lemma {:induction false} ActivateEnds(vcMap: map<U32, U32>, replies: nat -> ActivateReply, i: nat, k: nat)
    requires Decides(replies, k) && i <= k
    ensures var (after, status) := DeviceActivate(vcMap, replies(k));
            ActivateFrom(vcMap, replies, i) == (after, status, k)
    decreases k - i
  {
    if i < k { ActivateEnds(vcMap, replies, i + 1, k); }
  }

  /**
   The deciding answer alone determines an activation. If it grants an unused channel below 16, the channel is entered
   with one reference and the image and the constants are referenced once more, with or without a network object;
   otherwise nothing changes.
   */
  lemma ActivateIs(w: World, nn: nat, image: Resource, constants: Option<Resource>, replies: nat -> ActivateReply,
                   factory: bool, k: nat)
    requires Decides(replies, k)
    ensures var (t, status) := Activate(w, nn, image, constants, replies, factory);
            match replies(k)
            case Granted(v) =>
              if v <= 15 && v !in w.vcMap then
                && t.vcMap == w.vcMap[v := 1] && Moved(w.refs, t.refs, image, constants, 1)
                && t.networks == (if factory then w.networks[nn := Network(v, image, constants, false)] else w.networks)
                && status == (if factory then Success else NoMem)
              else t == w && status == (if v > 15 then Inval else Error)
            case Unsent(s) => t == w && status == (if s == Success then Error else s)
            case UnderRestart => t == w && status == Again
            case BadResponse => t == w && status == Inval
            case _ => t == w && status == DevError
  {
    ActivateEnds(w.vcMap, replies, 0, k);
    hide ActivateFrom, RaiseAll, Moved;
    if replies(k).Granted? {
      var net := Network(replies(k).vcid, image, constants, false);
      RaisedMoved(w.refs, net);
    }
  }

  lemma {:induction false} DeactivateEnds(vcMap: map<U32, U32>, vcid: U32, teardown: bool,
                                          replies: nat -> DeactivateReply, i: nat, k: nat)
    requires DecidesDown(replies, k) && i <= k && vcid in vcMap
    ensures DeactivateFrom(vcMap, vcid, teardown, replies, i) == DeviceDeactivate(vcMap, vcid, teardown, replies(k))
    decreases k - i
  {
    if i < k {
      assert AskedAgain(replies(i));
      assert (vcMap - {vcid})[vcid := vcMap[vcid]] == vcMap;
      DeactivateEnds(vcMap, vcid, teardown, replies, i + 1, k);
    }
  }

  /**
   The deciding answer alone determines a deactivation. The channel's count goes down in any case. If the device is
   done, the network goes, its references are given back, and a channel whose count came to zero is taken out of the
   map, unless it is the shared one; otherwise the network is marked as failed and keeps its references.
   */
  lemma DeactivateIs(w: World, nn: nat, replies: nat -> DeactivateReply, k: nat)
    requires nn in w.networks && w.networks[nn].vcid in w.vcMap && DecidesDown(replies, k)
    ensures var net, (t, status) := w.networks[nn], Deactivate(w, nn, replies);
            var n := if w.vcMap[net.vcid] == 0 then 0xFFFF_FFFF else w.vcMap[net.vcid] - 1;
            if replies(k).Done? then
              && status == Success && t.networks == w.networks - {nn}
              && t.vcMap == (if n == 0 && net.vcid != 0xFE then w.vcMap - {net.vcid} else w.vcMap[net.vcid := n])
              && Moved(w.refs, t.refs, net.image, net.constants, -1)
            else
              && t == World(w.vcMap[net.vcid := n], w.networks[nn := net.(failed := true)], w.refs)
              && status == (match replies(k)
                            case BadAnswer => Inval
                            case NotSent(s, restart) => if restart then Again else if s == Success then Error else s
                            case _ => DevError)
  {
    var net := w.networks[nn];
    var n := Decreased(w.vcMap[net.vcid]);
    var entered := w.vcMap[net.vcid := n];
    DeactivateEnds(entered, net.vcid, net.vcid != VC_RESERVATION_ID_SKIP && n == 0, replies, 0, k);
    LoweredMoved(w.refs, net);
    assert entered - {net.vcid} == w.vcMap - {net.vcid};
    assert (entered - {net.vcid})[net.vcid := n] == entered;
    hide DeactivateFrom, LowerAll, Moved;
  }
}
