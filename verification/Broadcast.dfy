/**
 The JBL broadcaster command: its ATT bearer slot, and the coordinator that pairs the
 write with the GENA business result.
 */
module Broadcast {
  import opened Wrappers
  import opened Backend
  import Gena
  import opened World

  datatype GattFailure =
    | AdapterUnavailable | DeviceConnectionFailed | MtuExchangeFailed | TransportNotReady | FrameTooLarge
    | WriteFailed | WriteResponseTimedOut | ChannelClosed | UnexpectedResponse

  const REQUESTED_MTU: nat := 500
  const MAX_PACKETS: nat := 32

  function ServerMtu(response: Packet): nat
    requires |response| == 3
  {
    Word(response[1], response[2])
  }

  /** An exchange response of three bytes offering at least 23 is accepted, and nothing else; the
      result is the smaller of what was offered and what was requested. */
  function ParseMtuResponse(response: Packet): (mtu: Option<nat>)
    ensures mtu.Some? <==> |response| == 3 && response[0] == 0x03 && ServerMtu(response) >= 23
    ensures mtu.Some? ==> mtu.value <= ServerMtu(response) && mtu.value <= REQUESTED_MTU
    ensures mtu.Some? ==> mtu.value == ServerMtu(response) || mtu.value == REQUESTED_MTU
  {
    if |response| == 3 && response[0] == 0x03 && Word(response[1], response[2]) >= 23 then
      var server := Word(response[1], response[2]);
      Some(if server < REQUESTED_MTU then server else REQUESTED_MTU)
    else None
  }

  datatype WriteResponse = Accepted | Notification | Rejected | Unexpected

  function ClassifyWriteResponse(response: Packet): WriteResponse {
    if response == [0x13] then WriteResponse.Accepted
    else if |response| == 5 && response[0] == 0x01 && response[1] == 0x12 && response[2] == 0x2a && response[3] == 0
    then Rejected
    else if |response| >= 1 && response[0] == 0x1b then Notification
    else Unexpected
  }

  /** Complete frame sizes of command 7957: six header bytes and the closed JSON payload. */
  function FrameSize(action: Gena.Action): nat { if action.StartBroadcast? then 6 + 193 else 6 + 12 }

  function RoleOf(action: Gena.Action): Role { if action.StartBroadcast? then BroadcastStart else BroadcastStop }

  /** The temporary bearer of one broadcaster command. */
  class GattTransport {
    var mtu: Option<nat>  // the bearer slot, holding the negotiated MTU
    ghost const log: Log

    constructor (ghost log: Log)
      ensures mtu.None? && this.log == log
    {
      mtu := None;
      this.log := log;
    }

    method Arm() returns (r: Result<(), GattFailure>)
      modifies this, log
      ensures r.Ok? <==> mtu.Some?
      ensures log.events == old(log.events) + [if r.Ok? then World.Arm else Fault]
    {
      mtu := None;
      var connected: bool, response: Packet := *, *;
      if connected { mtu := ParseMtuResponse(response); }
      r := if mtu.Some? then Ok(()) else if connected then Err(MtuExchangeFailed) else Err(DeviceConnectionFailed);
      log.events := log.events + [if r.Ok? then World.Arm else Fault];
    }

    /** Consumes the bearer, sends one frame and waits for the one write response. */
    method Execute(action: Gena.Action)
      returns (r: Result<(), GattFailure>, ghost wrote: bool, ghost replies: seq<Packet>)
      modifies this, log
      ensures mtu.None?
      ensures wrote <==> old(mtu).Some? && FrameSize(action) + 3 <= old(mtu).value
      ensures replies != [] ==> wrote && |replies| <= MAX_PACKETS
      ensures r.Ok? <==> replies != [] && replies[|replies| - 1] == [0x13]
      ensures forall i :: 0 <= i < |replies| - 1 ==> IsNotification(replies[i])
      ensures log.events ==
                old(log.events) + ((if wrote then [Write(RoleOf(action))] + Replies(replies) else []) + Faults(r.Ok?))
    {
      var sent;
      sent, wrote, replies := Attempt(action);
      r := sent;
      if r.Err? {
        World.Assoc(old(log.events), if wrote then [Write(RoleOf(action))] + Replies(replies) else [], [Fault]);
        log.events := log.events + [Fault];
      }
    }

    method Attempt(action: Gena.Action)
      returns (r: Result<(), GattFailure>, ghost wrote: bool, ghost replies: seq<Packet>)
      modifies this, log
      ensures mtu.None?
      ensures wrote <==> old(mtu).Some? && FrameSize(action) + 3 <= old(mtu).value
      ensures replies != [] ==> wrote && |replies| <= MAX_PACKETS
      ensures r.Ok? <==> replies != [] && replies[|replies| - 1] == [0x13]
      ensures forall i :: 0 <= i < |replies| - 1 ==> IsNotification(replies[i])
      ensures log.events == old(log.events) + if wrote then [Write(RoleOf(action))] + Replies(replies) else []
    {
      wrote, replies := false, [];
      if mtu.None? { return Err(TransportNotReady), wrote, replies; }
      var bearer := mtu.value;
      mtu := None;
      if bearer < 3 || FrameSize(action) > bearer - 3 { return Err(FrameTooLarge), wrote, replies; }
      wrote := true;
      log.events := log.events + [Write(RoleOf(action))];
      assert [Write(RoleOf(action))] + Replies([]) == [Write(RoleOf(action))];
      var sent: bool := *;
      if !sent { return Err(WriteFailed), wrote, replies; }
      for i := 0 to MAX_PACKETS
        invariant mtu.None? && |replies| == i
        invariant forall k :: 0 <= k < i ==> IsNotification(replies[k])
        invariant log.events == old(log.events) + ([Write(RoleOf(action))] + Replies(replies))
      {
        var received: Option<Packet>, closed: bool := *, *;
        if received.None? { return Err(if closed then ChannelClosed else WriteResponseTimedOut), wrote, replies; }
        log.events := log.events + [GattReply(received.value)];
        OneMoreReply(old(log.events), [Write(RoleOf(action))], replies, received.value);
        replies := replies + [received.value];
        match ClassifyWriteResponse(received.value) {
          case Accepted => return Ok(()), wrote, replies;
          case Notification =>
          case Rejected => return Err(WriteFailed), wrote, replies;
          case Unexpected => return Err(UnexpectedResponse), wrote, replies;
        }
      }
      return Err(UnexpectedResponse), wrote, replies;
    }

    method Cancel()
      modifies this
      ensures mtu.None?
    {
      mtu := None;
    }
  }

  /** A handle value notification. */
  predicate IsNotification(packet: Packet) { |packet| >= 1 && packet[0] == 0x1b }

  function Replies(packets: seq<Packet>): (events: seq<Event>)
    ensures |events| == |packets| && forall i :: 0 <= i < |packets| ==> events[i] == GattReply(packets[i])
  {
    seq(|packets|, i requires 0 <= i < |packets| => GattReply(packets[i]))
  }

  lemma OneMoreReply(log: seq<Event>, write: seq<Event>, replies: seq<Packet>, packet: Packet)
    ensures log + (write + Replies(replies)) + [GattReply(packet)] == log + (write + Replies(replies + [packet]))
  {
    assert Replies(replies + [packet]) == Replies(replies) + [GattReply(packet)];
  }

  datatype Confirmation = AckMode | GenaMode

  datatype BroadcastEvidence = AckOnly | ConfirmedNotification

  function MapGatt(failure: GattFailure): BroadcastFailure {
    if failure.WriteResponseTimedOut? then TimedOut else BroadcastUnavailable
  }

  function MapGena(failure: Gena.Failure): BroadcastFailure {
    if failure.CallbackTimedOut? then TimedOut
    else if failure.BusinessRejected? then BroadcastRejected
    else BroadcastUnavailable
  }

  /** The log of a confirmed broadcaster command: the write, its replies up to the write response,
      the event codes up to the action's own, and the release of the subscription. */
  function ConfirmedLog(action: Gena.Action, replies: seq<Packet>, codes: seq<Option<int>>): seq<Event> {
    [Write(RoleOf(action))] + Replies(replies) + Gena.Codes(codes) + [Unsubscribed]
  }

  ghost predicate Responded(replies: seq<Packet>) {
    && replies != [] && replies[|replies| - 1] == [0x13]
    && forall i :: 0 <= i < |replies| - 1 ==> IsNotification(replies[i])
  }

  /** The log around the write at `i`: subscribed at `k` before it and still so. */
  ghost predicate ConfirmedAt(action: Gena.Action, events: seq<Event>, k: int, i: int, replies: seq<Packet>,
                              codes: seq<Option<int>>)
  {
    var confirmed := ConfirmedLog(action, replies, codes);
    && 0 <= k < i && i + |confirmed| <= |events|
    && events[k] == Subscribed && (forall m :: k < m < i ==> !events[m].Unsubscribed?)
    && events[i..i + |confirmed|] == confirmed
    && Responded(replies) && Gena.Confirms(action, codes)
  }

  ghost predicate BusinessProof(action: Gena.Action, events: seq<Event>) {
    exists k, i, replies, codes :: ConfirmedAt(action, events, k, i, replies, codes)
  }

  /** A proof in the middle of a longer log is still one. */
  lemma AssembleProof(action: Gena.Action, before: seq<Event>, between: seq<Event>, replies: seq<Packet>,
                      codes: seq<Option<int>>, rest: seq<Event>)
    requires Responded(replies) && Gena.Confirms(action, codes)
    requires forall m :: 0 <= m < |between| ==> !between[m].Unsubscribed?
    ensures BusinessProof(action, before + [Subscribed] + between + ConfirmedLog(action, replies, codes) + rest)
  {
    var confirmed := ConfirmedLog(action, replies, codes);
    var events := before + [Subscribed] + between + confirmed + rest;
    var k, i := |before|, |before| + 1 + |between|;
    assert events[i..i + |confirmed|] == confirmed;
    forall m | k < m < i ensures !events[m].Unsubscribed? { assert events[m] == between[m - k - 1]; }
    assert ConfirmedAt(action, events, k, i, replies, codes);
  }

  lemma ProofAfter(action: Gena.Action, before: seq<Event>, events: seq<Event>)
    requires BusinessProof(action, events)
    ensures BusinessProof(action, before + events)
  {
    var k, i, replies, codes :| ConfirmedAt(action, events, k, i, replies, codes);
    var all, n, size := before + events, |before|, |ConfirmedLog(action, replies, codes)|;
    assert all[n + i..n + i + size] == events[i..i + size];
    forall m | n + k < m < n + i ensures !all[m].Unsubscribed? { assert all[m] == events[m - n]; }
    assert ConfirmedAt(action, all, n + k, n + i, replies, codes);
  }

  class Coordinator {
    const confirmation: Confirmation
    const mutation: GattTransport
    const business: Gena.Observer
    ghost const log: Log

    constructor (confirmation: Confirmation, ghost log: Log)
      ensures this.confirmation == confirmation && fresh(mutation) && fresh(business) && Released()
      ensures this.log == log && Wired()
    {
      this.confirmation := confirmation;
      mutation := new GattTransport(log);
      business := new Gena.Observer(log);
      this.log := log;
    }

    ghost predicate Wired() { mutation.log == log && business.log == log }

    /** No bearer and no subscription is held. */
    ghost predicate Released()
      reads mutation, business
    {
      mutation.mtu.None? && business.subscription.None?
    }

    method CancelAll() returns (r: Result<(), Gena.Failure>, ghost events: seq<Event>)
      requires Wired()
      modifies mutation, business, log
      ensures Released()
      ensures events == if old(business.subscription).None? then [] else if r.Ok? then [Unsubscribed] else [Fault]
      ensures old(business.subscription).None? ==> r.Ok?
      ensures log.events == old(log.events) + events
    {
      mutation.Cancel();
      r, events := business.Cancel();
    }

    /** Without a fault everything the mode needs is held; after one nothing is. */
    method Arm() returns (r: Result<(), BroadcastFailure>, ghost events: seq<Event>)
      requires Wired() && Released()
      modifies mutation, business, log
      ensures r.Err? ==> Released()
      ensures r.Ok? ==> mutation.mtu.Some? && (business.subscription.Some? <==> confirmation == GenaMode)
      ensures r.Ok? ==> events == if confirmation == GenaMode then [Subscribed] + [World.Arm] else [World.Arm]
      ensures r.Err? ==> Silent(events)
      ensures r.Ok? <==> Fault !in events
      ensures log.events == old(log.events) + events
    {
      events := [];
      if confirmation == AckMode {
        var armed := mutation.Arm();
        if armed.Err? { return Err(MapGatt(armed.error)), [Fault]; }
        return Ok(()), [World.Arm];
      }
      var subscribed;
      subscribed, events := business.Arm();
      if subscribed.Err? {
        var _, more := CancelAll();
        return Err(MapGena(subscribed.error)), events + more;
      }
      var armed := mutation.Arm();
      events := events + [if armed.Ok? then World.Arm else Fault];
      if armed.Err? {
        var _, more := CancelAll();
        return Err(MapGatt(armed.error)), events + more;
      }
      r := Ok(());
    }

    /** One broadcaster command.  Without a fault it succeeds, with the evidence of its mode. */
    method Execute(action: Gena.Action)
      returns (r: Result<BroadcastEvidence, BroadcastFailure>, ghost wrote: bool, ghost events: seq<Event>,
               ghost replies: seq<Packet>, ghost codes: seq<Option<int>>)
      requires Wired() && (confirmation == AckMode ==> business.subscription.None?)
      modifies mutation, business, log
      ensures Released()
      ensures r.Ok? ==> wrote && Responded(replies)
      ensures r.Ok? <==> Fault !in events
      ensures CommandShape(action, wrote, events)
      ensures r.Ok? ==> r.value == if confirmation == AckMode then AckOnly else ConfirmedNotification
      ensures r == Ok(AckOnly) ==> events == [Write(RoleOf(action))] + Replies(replies)
      ensures r == Ok(ConfirmedNotification) ==>
                events == ConfirmedLog(action, replies, codes) && Gena.Confirms(action, codes)
      ensures log.events == old(log.events) + events
    {
      codes := [];
      var sent;
      sent, wrote, replies := mutation.Execute(action);
      events := (if wrote then [Write(RoleOf(action))] + Replies(replies) else []) + Faults(sent.Ok?);
      WriteShape(action, wrote, replies, sent.Ok?);
      if confirmation == AckMode {
        r := if sent.Ok? then Ok(AckOnly) else Err(MapGatt(sent.error));
        return;
      }
      ghost var more;
      if sent.Err? {
        var _, released := CancelAll();
        more := released;
        r := Err(MapGatt(sent.error));
      } else {
        r, more, codes := Confirm(action);
      }
      World.Assoc(old(log.events), events, more);
      ShapeExtends(action, wrote, events, more);
      if r.Ok? { ConfirmedJoins(action, replies, codes); }
      events := events + more;
    }

    /** The business half of a command whose write was answered. */
    method Confirm(action: Gena.Action)
      returns (r: Result<BroadcastEvidence, BroadcastFailure>, ghost events: seq<Event>, ghost codes: seq<Option<int>>)
      requires Wired() && mutation.mtu.None?
      modifies mutation, business, log
      ensures Released() && Silent(events) && log.events == old(log.events) + events
      ensures r.Ok? <==> Fault !in events
      ensures r.Ok? ==> r.value == ConfirmedNotification
      ensures r.Ok? ==> events == Gena.Codes(codes) + [Unsubscribed] && Gena.Confirms(action, codes)
    {
      var observed;
      observed, events, codes := business.Observe(action);
      var cleanup, more := CancelAll();
      assert more == [];
      if observed.Err? { return Err(MapGena(observed.error)), events, codes; }
      match cleanup {
        case Err(failure) => return Err(MapGena(failure)), events, codes;
        case Ok(_) =>
      }
      r := Ok(ConfirmedNotification);
    }

    method Cancel() returns (ghost events: seq<Event>)
      requires Wired()
      modifies mutation, business, log
      ensures Released() && Silent(events)
      ensures log.events == old(log.events) + events
    {
      var _, more := CancelAll();
      events := more;
    }
  }

  ghost predicate CommandShape(action: Gena.Action, wrote: bool, events: seq<Event>) {
    if wrote then events != [] && events[0] == Write(RoleOf(action)) && Silent(events[1..]) else Silent(events)
  }

  lemma WriteShape(action: Gena.Action, wrote: bool, replies: seq<Packet>, ok: bool)
    ensures var events := (if wrote then [Write(RoleOf(action))] + Replies(replies) else []) + Faults(ok);
            CommandShape(action, wrote, events) && (Fault in events <==> !ok)
  {
    var events := (if wrote then [Write(RoleOf(action))] + Replies(replies) else []) + Faults(ok);
    if wrote { assert events[1..] == Replies(replies) + Faults(ok); }
    if !ok { assert events[|events| - 1] == Fault; }
  }

  lemma ConfirmedJoins(action: Gena.Action, replies: seq<Packet>, codes: seq<Option<int>>)
    ensures [Write(RoleOf(action))] + Replies(replies) + Faults(true) + (Gena.Codes(codes) + [Unsubscribed])
            == ConfirmedLog(action, replies, codes)
  {
  }

  lemma ShapeExtends(action: Gena.Action, wrote: bool, events: seq<Event>, more: seq<Event>)
    requires CommandShape(action, wrote, events) && Silent(more)
    ensures CommandShape(action, wrote, events + more)
  {
    if wrote { assert (events + more)[1..] == events[1..] + more; }
  }
}
