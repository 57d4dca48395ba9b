/**
 The Aura control core: one latched command channel over a raw ATT bearer, the
 drain of stale packets before a write, and the exact acknowledgement.
 */
module Aura {
  import opened Wrappers
  import opened Acquisition
  import opened World

  datatype Command = On | Off

  datatype Health = Offline | Ready | Unavailable | OutcomeUnknownHealth

  datatype ActionResult =
    | Accepted
    | RejectedBeforeSend(reason: AuraFailureReason)
    | OutcomeUnknown(reason: AuraFailureReason)

  const MAX_STALE: nat := 32
  const NOTIFY_HANDLE: int := 0x03ec
  const SUCCESS_ACK: Packet := [0xaa, 0x00, 0x02, 0x13, 0x00]

  // ---------------------------------------------------------------- PDUs

  /** Handle Value Notification (opcode 0x1b) and Write Response (0x13), Bluetooth Core
      Specification, Vol 3, Part F, sections 3.4.5 and 3.4.7. */
  datatype Pdu = WriteResponse | Notification(handle: int, value: Packet) | Other

  function ParsePdu(packet: Packet): Pdu {
    if packet == [0x13] then WriteResponse
    else if |packet| >= 3 && packet[0] == 0x1b then Notification(Word(packet[1], packet[2]), packet[3..])
    else Other
  }

  predicate IsAcknowledgement(packet: Packet) {
    var pdu := ParsePdu(packet);
    pdu.Notification? && pdu.handle == NOTIFY_HANDLE && pdu.value == SUCCESS_ACK
  }

  /** Exactly one byte string acknowledges a command. */
  lemma OneAcknowledgement(packet: Packet)
    ensures IsAcknowledgement(packet) <==> packet == [0x1b, 0xec, 0x03, 0xaa, 0x00, 0x02, 0x13, 0x00]
  {
    if IsAcknowledgement(packet) {
      assert packet == packet[..3] + packet[3..];
      assert packet[..3] == [0x1b, 0xec, 0x03];
    }
  }

  // ---------------------------------------------------------------- the receive queue

  function Arrivals(packets: seq<Packet>): (events: seq<Event>)
    ensures |events| == |packets| && forall i :: 0 <= i < |packets| ==> events[i] == Arrived(packets[i])
  {
    seq(|packets|, i requires 0 <= i < |packets| => Arrived(packets[i]))
  }

  /** Replays a log on a FIFO queue; None when the log is not one a FIFO socket can produce. */
  function Replay(start: seq<Packet>, events: seq<Event>): Option<seq<Packet>> {
    if events == [] then Some(start)
    else
      match Replay(start, events[..|events| - 1])
      case None => None
      case Some(queue) => Replayed(queue, events[|events| - 1])
  }

  function Replayed(queue: seq<Packet>, e: Event): Option<seq<Packet>> {
    match e
    case Arrived(packet) => Some(queue + [packet])
    case Received(packet) => if queue != [] && queue[0] == packet then Some(queue[1..]) else None
    case QueueEmpty => if queue == [] then Some([]) else None
    case _ => Some(queue)
  }

  lemma {:induction false} ReplaySnoc(start: seq<Packet>, events: seq<Event>, e: Event)
    requires Replay(start, events).Some?
    ensures Replay(start, events + [e]) == Replayed(Replay(start, events).value, e)
  {
    assert (events + [e])[..|events|] == events;
  }

  lemma {:induction false} ReplayArrivals(start: seq<Packet>, events: seq<Event>, packets: seq<Packet>)
    requires Replay(start, events).Some?
    ensures Replay(start, events + Arrivals(packets)) == Some(Replay(start, events).value + packets)
  {
    if packets == [] {
      assert events + Arrivals(packets) == events;
      assert Replay(start, events).value + packets == Replay(start, events).value;
    } else {
      var front, last := packets[..|packets| - 1], packets[|packets| - 1];
      ReplayArrivals(start, events, front);
      ArrivalsSnoc(events, front, last);
      assert packets == front + [last];
      ReplaySnoc(start, events + Arrivals(front), Arrived(last));
      World.Assoc(Replay(start, events).value, front, [last]);
    }
  }

  lemma ArrivalsSnoc(events: seq<Event>, front: seq<Packet>, last: Packet)
    ensures events + Arrivals(front + [last]) == events + Arrivals(front) + [Arrived(last)]
  {
    assert Arrivals(front + [last]) == Arrivals(front) + [Arrived(last)];
    World.Assoc(events, Arrivals(front), [Arrived(last)]);
  }

  lemma {:induction false} ReplayPrefix(start: seq<Packet>, events: seq<Event>, n: nat)
    requires Replay(start, events).Some? && n <= |events|
    ensures Replay(start, events[..n]).Some?
    decreases |events|
  {
    if n < |events| {
      var front := events[..|events| - 1];
      assert front[..n] == events[..n];
      ReplayPrefix(start, front, n);
    } else {
      assert events[..n] == events;
    }
  }

  /** What is queued after an empty poll arrived after it. */
  lemma {:induction false} QueuedIsNew(start: seq<Packet>, events: seq<Event>, i: nat, n: nat, k: nat)
    requires Replay(start, events).Some? && i < n <= |events| && events[i] == QueueEmpty
    requires Replay(start, events[..n]).Some? && k < |Replay(start, events[..n]).value|
    ensures exists a :: i < a < n && events[a] == Arrived(Replay(start, events[..n]).value[k])
    decreases n
  {
    var before, last := events[..n - 1], events[n - 1];
    assert events[..n][..n - 1] == before;
    ReplayPrefix(start, events, n - 1);
    var queue, now := Replay(start, before).value, Replay(start, events[..n]).value;
    assert Replayed(queue, last) == Some(now);
    if last.Arrived? && k == |queue| {
      assert events[n - 1] == Arrived(now[k]);
    } else if n - 1 > i {
      QueuedIsNew(start, events, i, n - 1, if last.Received? then k + 1 else k);
    }
  }

  /** No stale acknowledgement: whatever is received after the queue was observed empty arrived
      after that observation, in every log a FIFO socket can produce. */
  lemma ReceivedIsFresh(start: seq<Packet>, events: seq<Event>, i: nat, j: nat)
    requires Replay(start, events).Some? && i < j < |events|
    requires events[i] == QueueEmpty && events[j].Received?
    ensures exists a :: i < a < j && events[a] == Arrived(events[j].packet)
  {
    ReplayPrefix(start, events, j + 1);
    ReplayPrefix(start, events, j);
    assert events[..j + 1][..j] == events[..j];
    QueuedIsNew(start, events, i, j, 0);
  }

  predicate PacketsOnly(events: seq<Event>) {
    forall i :: 0 <= i < |events| ==> events[i].Arrived? || events[i].Received? || events[i].QueueEmpty?
  }

  function CountReceived(events: seq<Event>): nat {
    if events == [] then 0
    else CountReceived(events[..|events| - 1]) + (if events[|events| - 1].Received? then 1 else 0)
  }

  lemma {:induction false} CountSnoc(events: seq<Event>, e: Event)
    ensures CountReceived(events + [e]) == CountReceived(events) + (if e.Received? then 1 else 0)
  {
    assert (events + [e])[..|events|] == events;
  }

  lemma {:induction false} CountArrivals(events: seq<Event>, packets: seq<Packet>)
    ensures CountReceived(events + Arrivals(packets)) == CountReceived(events)
  {
    if packets == [] {
      assert events + Arrivals(packets) == events;
    } else {
      var front, last := packets[..|packets| - 1], packets[|packets| - 1];
      CountArrivals(events, front);
      ArrivalsSnoc(events, front, last);
      assert packets == front + [last];
      CountSnoc(events + Arrivals(front), Arrived(last));
    }
  }

  /** What happens at one non-blocking receive: packets that arrive first, and whether the channel is broken. */
  datatype Poll = Poll(arrived: seq<Packet>, broken: bool)

  datatype Polled = Nothing | Taken(packet: Packet) | Broken

  function ArrivedBy(polls: seq<Poll>): seq<Packet> {
    if polls == [] then [] else ArrivedBy(polls[..|polls| - 1]) + polls[|polls| - 1].arrived
  }

  /** Poll `k` finds the queue empty: exactly `k` packets were ever there, and all were taken. */
  ghost predicate EmptyAt(queue: seq<Packet>, polls: seq<Poll>, k: nat)
    requires k < |polls|
  {
    (forall i :: 0 <= i <= k ==> !polls[i].broken) && |queue| + |ArrivedBy(polls[..k + 1])| == k
  }

  ghost predicate Drains(queue: seq<Packet>, polls: seq<Poll>)
    requires |polls| == MAX_STALE
  {
    exists k :: 0 <= k < MAX_STALE && EmptyAt(queue, polls, k)
  }

  /** A quiet queue of `n` packets drains exactly when `n < 32`. */
  lemma QuietDrain(queue: seq<Packet>, polls: seq<Poll>)
    requires |polls| == MAX_STALE && forall i :: 0 <= i < |polls| ==> polls[i] == Poll([], false)
    ensures Drains(queue, polls) <==> |queue| < MAX_STALE
  {
    forall k | 0 <= k < MAX_STALE
      ensures EmptyAt(queue, polls, k) <==> |queue| == k
    {
      NothingArrived(polls[..k + 1]);
    }
    if |queue| < MAX_STALE { assert EmptyAt(queue, polls, |queue|); }
  }

  lemma {:induction false} NothingArrived(polls: seq<Poll>)
    requires forall i :: 0 <= i < |polls| ==> polls[i].arrived == []
    ensures ArrivedBy(polls) == []
  {
    if polls != [] { NothingArrived(polls[..|polls| - 1]); }
  }

  /** The log of a drain: packets only, a run of the queue, at most 32 taken, and observed empty
      by its last event or not at all. */
  ghost predicate Drained(start: seq<Packet>, events: seq<Event>, queue: seq<Packet>, empty: bool) {
    && PacketsOnly(events) && Replay(start, events) == Some(queue) && CountReceived(events) <= MAX_STALE
    && (if empty then events != [] && events[|events| - 1] == QueueEmpty && queue == [] else QueueEmpty !in events)
  }

  /** The log of one command: drain, write, and the first packet after it. */
  ghost predicate Commanded(start: seq<Packet>, drain: seq<Event>, events: seq<Event>, queue: seq<Packet>, role: Role,
                            wrote: bool)
  {
    && drain <= events && PacketsOnly(drain) && CountReceived(drain) <= MAX_STALE
    && Replay(start, events) == Some(queue)
    && if wrote
       then && drain != [] && drain[|drain| - 1] == QueueEmpty
            && |events| > |drain| && events[|drain|] == Write(role)
            && PacketsOnly(events[|drain| + 1..]) && QueueEmpty !in events[|drain| + 1..]
            && forall m :: |drain| < m < |events| - 1 ==> !events[m].Received?
       else events == drain && QueueEmpty !in drain
  }

  /** The last event is the acknowledgement, and it is the first packet received after the write. */
  ghost predicate Acknowledged(drain: seq<Event>, events: seq<Event>) {
    && |events| > |drain| + 1
    && events[|events| - 1].Received? && IsAcknowledgement(events[|events| - 1].packet)
    && forall m :: |drain| < m < |events| - 1 ==> !events[m].Received?
  }

  /** An accepted command's acknowledgement arrived after the drain saw the queue empty. */
  lemma AcknowledgementIsFresh(start: seq<Packet>, drain: seq<Event>, events: seq<Event>, queue: seq<Packet>,
                               role: Role)
    requires Commanded(start, drain, events, queue, role, true) && Acknowledged(drain, events)
    ensures exists a :: |drain| <= a < |events| - 1 && events[a] == Arrived(events[|events| - 1].packet)
  {
    assert events[|drain| - 1] == QueueEmpty;
    ReceivedIsFresh(start, events, |drain| - 1, |events| - 1);
  }

  lemma {:induction false} CommandDevices(drain: seq<Event>, events: seq<Event>, role: Role, wrote: bool)
    requires drain <= events && PacketsOnly(drain)
    requires if wrote then |events| > |drain| && events[|drain|] == Write(role) && PacketsOnly(events[|drain| + 1..])
             else events == drain
    ensures Devices(events) == if wrote then [Write(role)] else []
    ensures OfBackend(events)
  {
    DevicesAreSilent(drain);
    if wrote {
      var rest := events[|drain| + 1..];
      DevicesAreSilent(rest);
      assert events == drain + [Write(role)] + rest;
      DevicesConcat(drain + [Write(role)], rest);
      DevicesConcat(drain, [Write(role)]);
      DevicesAreAll([Write(role)]);
      forall i | 0 <= i < |events| ensures !events[i].DiskIs? && !events[i].MembershipRead? && !events[i].HealthRead? {
        if i > |drain| { assert events[i] == rest[i - |drain| - 1]; }
      }
    }
  }

  // ---------------------------------------------------------------- control core

  function RoleOf(command: Command): Role { if command.On? then AuraOn else AuraOff }

  /** One persistent bearer and the latch that an uncertain write leaves behind. */
  class ControlCore {
    var bearer: Option<Bearer>
    var queue: seq<Packet>
    var unresolved: Option<AuraFailureReason>
    ghost const log: Log

    ghost predicate Valid()
      reads this
    {
      bearer.Some? ==> RouteMatchesTransport(bearer.value)
    }

    constructor (ghost log: Log)
      ensures Valid() && bearer.None? && unresolved.None? && this.log == log
    {
      bearer, queue, unresolved := None, [], None;
      this.log := log;
    }

    /** A dead bearer is dropped as soon as it is noticed. */
    method IoHealth() returns (health: Health)
      modifies this`bearer, log
      ensures bearer == if health.Ready? then old(bearer) else None
      ensures health.Ready? ==> bearer.Some?
      ensures health != OutcomeUnknownHealth
      ensures old(bearer).None? ==> health == Offline
      ensures log.events == old(log.events) + [Probe(health.Ready?)]
    {
      var failed: bool, alive: bool := *, *;
      health := if bearer.None? then Offline
                else if failed then Health.Unavailable
                else if alive then Ready else Offline;
      if !health.Ready? { bearer := None; }
      log.events := log.events + [Probe(health.Ready?)];
    }

    method CurrentHealth() returns (health: Health)
      modifies this`bearer, log
      ensures unresolved.Some? <==> health == OutcomeUnknownHealth
      ensures unresolved.Some? ==> bearer == old(bearer) && log.events == old(log.events)
      ensures unresolved.None? ==> bearer == (if health.Ready? then old(bearer) else None)
      ensures unresolved.None? ==> log.events == old(log.events) + [Probe(health.Ready?)]
      ensures health.Ready? ==> bearer.Some?
      ensures unresolved.None? && old(bearer).None? ==> health == Offline
    {
      if unresolved.Some? { return OutcomeUnknownHealth; }
      health := IoHealth();
    }

    /** Transport teardown; it never writes a role command. */
    method Shutdown() returns (ok: bool)
      requires Valid()
      modifies this, log
      ensures Valid()
      ensures ok ==> bearer.None? && unresolved.None?
      ensures !ok ==> unresolved == old(unresolved) && bearer == old(bearer)
      ensures log.events == old(log.events) + if ok then [Teardown] else [Fault]
    {
      ok := *;
      if ok {
        bearer, queue, unresolved := None, [], None;
        log.events := log.events + [Teardown];
      } else {
        log.events := log.events + [Fault];
      }
    }

    /** Acquires a bearer: a live one is kept, anything else is torn down first.  Without a fault
        it succeeds. */
    method ConnectVerified() returns (r: Result<(), AuraFailureReason>, ghost events: seq<Event>)
      requires Valid()
      modifies this, log
      ensures Valid()
      ensures r.Ok? ==> bearer.Some? && unresolved.None?
      ensures r.Ok? <==> Fault !in events
      ensures old(bearer).None? && old(unresolved).None? ==>
                events == (if r.Ok? then [ColdConnect] else [Fault]) && (r.Err? ==> bearer.None?)
      ensures r.Err? ==> unresolved == old(unresolved) || unresolved.None?
      ensures forall i :: 0 <= i < |events| ==>
                events[i] == Teardown || events[i] == ColdConnect || events[i] == Fault || events[i].Probe?
      ensures log.events == old(log.events) + events
    {
      events := [];
      if unresolved.Some? {
        var down := Shutdown();
        events := events + [if down then Teardown else Fault];
        if !down { return Err(DisconnectFailed), events; }
      }
      // A bearer of another identity is not even looked at.
      var sameIdentity: bool := *;
      if bearer.Some? && sameIdentity {
        var health := IoHealth();
        events := events + [Probe(health.Ready?)];
        if health.Ready? { unresolved := None; return Ok(()), events; }
      }
      if bearer.Some? {
        var down := Shutdown();
        events := events + [if down then Teardown else Fault];
        if !down { return Err(DisconnectFailed), events; }
      }
      r := ColdAcquire();
      events := events + [if r.Ok? then ColdConnect else Fault];
    }

    /** One cold acquisition into an empty slot. */
    method ColdAcquire() returns (r: Result<(), AuraFailureReason>)
      requires Valid()
      modifies this, log
      ensures Valid() && (if r.Ok? then bearer.Some? && unresolved.None? && queue == [] else
                          bearer == old(bearer) && unresolved == old(unresolved))
      ensures log.events == old(log.events) + if r.Ok? then [ColdConnect] else [Fault]
    {
      var env: ColdEnv := *;
      var acquired, trace, woke, tail := ConnectColdBearer(env);
      if acquired.Err? {
        log.events := log.events + [Fault];
        return Err(acquired.error);
      }
      bearer, queue, unresolved := Some(acquired.value), [], None;
      log.events := log.events + [ColdConnect];
      r := Ok(());
    }

    /** One non-blocking receive. */
    method TryReceive(poll: Poll) returns (polled: Polled, ghost events: seq<Event>)
      modifies this`queue, log
      ensures log.events == old(log.events) + events
      ensures PolledFrom(old(queue), poll, polled, queue) && events == PollSteps(poll, polled)
    {
      queue := queue + poll.arrived;
      log.events := log.events + Arrivals(poll.arrived);
      if poll.broken { return Broken, Arrivals(poll.arrived); }
      if queue == [] {
        log.events := log.events + [QueueEmpty];
        return Nothing, [QueueEmpty];
      }
      polled := Taken(queue[0]);
      log.events := log.events + [Received(queue[0])];
      events := PollSteps(poll, polled);
      queue := queue[1..];
    }

    /** Discards stale packets until the queue is observed empty, at most 32 times. */
    method DrainPackets(polls: seq<Poll>) returns (r: Result<(), AuraFailureReason>, ghost events: seq<Event>)
      requires |polls| == MAX_STALE
      modifies this`queue, log
      ensures log.events == old(log.events) + events
      ensures Drained(old(queue), events, queue, r.Ok?)
      ensures r.Ok? <==> Drains(old(queue), polls)
      ensures r == Err(NotificationQueueInvalid) ==> CountReceived(events) == MAX_STALE
    {
      events := [];
      ghost var start := queue;
      for i := 0 to MAX_STALE
        invariant log.events == old(log.events) + events
        invariant Drained(start, events, queue, false) && CountReceived(events) == i
        invariant StillFull(start, polls, i, queue)
      {
        ghost var before, queued := events, queue;
        var polled, steps := TryReceive(polls[i]);
        events := before + steps;
        World.Assoc(old(log.events), before, steps);
        PollKeepsDrain(start, before, queued, polls[i], steps, polled, queue);
        PollDecides(start, polls, i, queued, polled, queue);
        match polled {
          case Broken => return Err(AcknowledgementChannelClosed), events;
          case Nothing => return Ok(()), events;
          case Taken(_) =>
        }
      }
      r := Err(NotificationQueueInvalid);
    }

    /** One role command: a look at the bearer, then on a live one drain, write and wait.  `command_`
        is the part after the look; from the write on every failure latches. */
    method Send(command: Command)
      returns (result: ActionResult, ghost wrote: bool, ghost live: bool, ghost polls: seq<Poll>,
               ghost drain: seq<Event>, ghost command_: seq<Event>, ghost events: seq<Event>)
      requires Valid()
      modifies this, log
      ensures Valid() && log.events == old(log.events) + events
      ensures old(unresolved).Some? ==>
                result == OutcomeUnknown(old(unresolved).value) && events == [] && unresolved == old(unresolved)
      ensures old(unresolved).None? ==> events == [Probe(live)] + (command_ + Faults(result.Accepted?))
      ensures Commanded(old(queue), drain, command_, queue, RoleOf(command), wrote)
      ensures |polls| == MAX_STALE && (wrote <==> old(unresolved).None? && live && Drains(old(queue), polls))
      ensures if live then bearer.Some? && bearer == old(bearer) else old(unresolved).None? ==> bearer.None?
      ensures result.RejectedBeforeSend? <==> old(unresolved).None? && !wrote
      ensures result.Accepted? <==> wrote && Acknowledged(drain, command_)
      ensures unresolved == if result.OutcomeUnknown? then Some(result.reason) else None
      ensures Devices(events) == (if wrote then [Write(RoleOf(command))] else []) && OfBackend(events)
    {
      wrote, live, drain, command_, events := false, false, [], [], [];
      polls := seq(MAX_STALE, _ => Poll([], false));
      if unresolved.Some? {
        result := OutcomeUnknown(unresolved.value);
        return;
      }
      var health := IoHealth();
      if !health.Ready? {
        log.events := log.events + [Fault];
        events := [Probe(false)] + ([] + [Fault]);
        SendDevices(false, [], [], RoleOf(command), false, false);
        result := RejectedBeforeSend(TransportNotReady);
        return;
      }
      live := true;
      assert |polls| == MAX_STALE;
      var answers: seq<Poll> :| |answers| == MAX_STALE;
      polls := answers;
      result, wrote, drain, command_ := DrainAndWrite(RoleOf(command), answers);
      events := [Probe(true)] + (command_ + Faults(result.Accepted?));
      World.Assoc(old(log.events), [Probe(true)], command_ + Faults(result.Accepted?));
      SendDevices(true, drain, command_, RoleOf(command), wrote, result.Accepted?);
    }

    /** The command on a live bearer: drain, write, wait. */
    method DrainAndWrite(role: Role, answers: seq<Poll>)
      returns (result: ActionResult, ghost wrote: bool, ghost drain: seq<Event>, ghost command_: seq<Event>)
      requires |answers| == MAX_STALE && unresolved.None?
      modifies this`queue, this`unresolved, log
      ensures log.events == old(log.events) + (command_ + Faults(result.Accepted?))
      ensures Commanded(old(queue), drain, command_, queue, role, wrote)
      ensures wrote <==> Drains(old(queue), answers)
      ensures wrote <==> !result.RejectedBeforeSend?
      ensures unresolved == if result.OutcomeUnknown? then Some(result.reason) else None
      ensures result.Accepted? <==> wrote && Acknowledged(drain, command_)
    {
      var drained;
      drained, drain := DrainPackets(answers);
      if drained.Err? {
        log.events := log.events + [Fault];
        World.Assoc(old(log.events), drain, [Fault]);
        return RejectedBeforeSend(drained.error), false, drain, drain;
      }
      // From this call on nothing proves that the peer saw zero bytes.
      wrote := true;
      var failure, rest := WriteAndWait(role);
      command_ := drain + rest;
      World.Assoc(old(log.events), drain, rest);
      CommandJoins(old(queue), drain, rest, queue, role);
      AcknowledgedTail(drain, rest);
      unresolved := failure;
      result := if failure.Some? then OutcomeUnknown(failure.value) else Accepted;
      if failure.Some? {
        log.events := log.events + [Fault];
        World.Assoc(old(log.events), command_, [Fault]);
      }
    }

    /** Begins the write and waits for one packet; None is the exact acknowledgement. */
    method WriteAndWait(role: Role) returns (failure: Option<AuraFailureReason>, ghost events: seq<Event>)
      modifies this`queue, log
      ensures log.events == old(log.events) + events
      ensures Awaited(role, events)
      ensures Replay(old(queue), events) == Some(queue)
      ensures failure.None? <==> AcknowledgedLast(events)
    {
      log.events := log.events + [Write(role)];
      events := [Write(role)];
      var sent: bool := *;
      var arrivals: seq<Packet> := *;
      WaitReplays(queue, role, arrivals);
      AwaitedArrivals(role, arrivals);
      if !sent { return Some(WriteFailed), events; }
      queue := queue + arrivals;
      log.events := log.events + Arrivals(arrivals);
      World.Assoc(old(log.events), events, Arrivals(arrivals));
      events := events + Arrivals(arrivals);
      if queue == [] {
        var closed: bool := *;
        return Some(if closed then AcknowledgementChannelClosed else AcknowledgementTimedOut), events;
      }
      var packet := queue[0];
      queue := queue[1..];
      log.events := log.events + [Received(packet)];
      World.Assoc(old(log.events), events, [Received(packet)]);
      events := events + [Received(packet)];
      failure := if IsAcknowledgement(packet) then None else Some(UnexpectedAcknowledgement);
    }
  }

  /** A write followed by packets that arrive or are received. */
  ghost predicate Awaited(role: Role, events: seq<Event>) {
    && events != [] && events[0] == Write(role) && PacketsOnly(events[1..]) && QueueEmpty !in events[1..]
    && forall m :: 0 <= m < |events| - 1 ==> !events[m].Received?
  }

  lemma AwaitedArrivals(role: Role, arrivals: seq<Packet>)
    ensures Awaited(role, [Write(role)]) && Awaited(role, [Write(role)] + Arrivals(arrivals))
    ensures forall packet :: Awaited(role, [Write(role)] + Arrivals(arrivals) + [Received(packet)])
  {
    assert ([Write(role)] + Arrivals(arrivals))[1..] == Arrivals(arrivals);
    forall packet
      ensures Awaited(role, [Write(role)] + Arrivals(arrivals) + [Received(packet)])
    {
      assert ([Write(role)] + Arrivals(arrivals) + [Received(packet)])[1..] == Arrivals(arrivals) + [Received(packet)];
    }
  }

  /** The last event, and the first packet received, is the acknowledgement. */
  ghost predicate AcknowledgedLast(events: seq<Event>) {
    && |events| > 1 && events[|events| - 1].Received? && IsAcknowledgement(events[|events| - 1].packet)
    && forall m :: 0 < m < |events| - 1 ==> !events[m].Received?
  }

  lemma AcknowledgedTail(drain: seq<Event>, rest: seq<Event>)
    ensures Acknowledged(drain, drain + rest) <==> AcknowledgedLast(rest)
  {
    var events := drain + rest;
    if AcknowledgedLast(rest) {
      forall m | |drain| < m < |events| - 1 ensures !events[m].Received? { assert events[m] == rest[m - |drain|]; }
    }
    if Acknowledged(drain, events) {
      forall m | 0 < m < |rest| - 1 ensures !rest[m].Received? { assert rest[m] == events[m + |drain|]; }
    }
  }

  lemma SendDevices(live: bool, drain: seq<Event>, command_: seq<Event>, role: Role, wrote: bool, accepted: bool)
    requires drain <= command_ && PacketsOnly(drain)
    requires if wrote then |command_| > |drain| && command_[|drain|] == Write(role)
             && PacketsOnly(command_[|drain| + 1..])
             else command_ == drain
    ensures var events := [Probe(live)] + (command_ + Faults(accepted));
            OfBackend(events) && Devices(events) == if wrote then [Write(role)] else []
  {
    CommandDevices(drain, command_, role, wrote);
    DevicesAreSilent(Faults(accepted));
    DevicesAreSilent([Probe(live)]);
    DevicesConcat(command_, Faults(accepted));
    DevicesConcat([Probe(live)], command_ + Faults(accepted));
  }

  lemma WaitReplays(start: seq<Packet>, role: Role, arrivals: seq<Packet>)
    ensures Replay(start, [Write(role)]) == Some(start)
    ensures Replay(start, [Write(role)] + Arrivals(arrivals)) == Some(start + arrivals)
    ensures var queue := start + arrivals;
            queue != [] ==>
              Replay(start, [Write(role)] + Arrivals(arrivals) + [Received(queue[0])]) == Some(queue[1..])
  {
    var events, queue := [Write(role)], start + arrivals;
    assert [] + events == events;
    ReplaySnoc(start, [], Write(role));
    ReplayArrivals(start, events, arrivals);
    if queue != [] { ReplaySnoc(start, events + Arrivals(arrivals), Received(queue[0])); }
  }

  /** The first `i` polls each took one packet. */
  ghost predicate StillFull(start: seq<Packet>, polls: seq<Poll>, i: nat, queue: seq<Packet>)
    requires i <= |polls|
  {
    && i + |queue| == |start| + |ArrivedBy(polls[..i])|
    && forall k :: 0 <= k < i ==> !polls[k].broken && !EmptyAt(start, polls, k)
  }

  function PollSteps(poll: Poll, polled: Polled): seq<Event> {
    match polled
    case Broken => Arrivals(poll.arrived)
    case Nothing => [QueueEmpty]
    case Taken(packet) => Arrivals(poll.arrived) + [Received(packet)]
  }

  ghost predicate PolledFrom(queue: seq<Packet>, poll: Poll, polled: Polled, after: seq<Packet>) {
    var all := queue + poll.arrived;
    if poll.broken then polled == Broken && after == all
    else if all == [] then polled == Nothing && after == []
    else polled == Taken(all[0]) && after == all[1..]
  }

  lemma PollDecides(start: seq<Packet>, polls: seq<Poll>, i: nat, queue: seq<Packet>, polled: Polled,
                    after: seq<Packet>)
    requires i < |polls| == MAX_STALE && StillFull(start, polls, i, queue) && PolledFrom(queue, polls[i], polled, after)
    ensures polled.Nothing? ==> Drains(start, polls)
    ensures polled.Broken? ==> !Drains(start, polls)
    ensures polled.Taken? ==> StillFull(start, polls, i + 1, after)
    ensures polled.Taken? && i + 1 == MAX_STALE ==> !Drains(start, polls)
  {
    assert polls[..i + 1][..i] == polls[..i];
    assert EmptyAt(start, polls, i) <==> polled.Nothing?;
  }

  lemma PollKeepsDrain(start: seq<Packet>, events: seq<Event>, queue: seq<Packet>, poll: Poll, steps: seq<Event>,
                       polled: Polled, after: seq<Packet>)
    requires Drained(start, events, queue, false) && CountReceived(events) < MAX_STALE
    requires PolledFrom(queue, poll, polled, after) && steps == PollSteps(poll, polled)
    ensures Drained(start, events + steps, after, polled.Nothing?)
    ensures CountReceived(events + steps) == CountReceived(events) + (if polled.Taken? then 1 else 0)
  {
    match polled
    case Nothing =>
      ReplaySnoc(start, events, QueueEmpty);
      CountSnoc(events, QueueEmpty);
    case Broken =>
      DrainArrives(start, events, queue, poll.arrived);
    case Taken(packet) =>
      DrainArrives(start, events, queue, poll.arrived);
      DrainTakes(start, events + Arrivals(poll.arrived), queue + poll.arrived);
      World.Assoc(events, Arrivals(poll.arrived), [Received(packet)]);
  }

  lemma DrainArrives(start: seq<Packet>, events: seq<Event>, queue: seq<Packet>, packets: seq<Packet>)
    requires Drained(start, events, queue, false)
    ensures Drained(start, events + Arrivals(packets), queue + packets, false)
    ensures CountReceived(events + Arrivals(packets)) == CountReceived(events)
  {
    ReplayArrivals(start, events, packets);
    CountArrivals(events, packets);
  }

  lemma DrainTakes(start: seq<Packet>, events: seq<Event>, queue: seq<Packet>)
    requires Drained(start, events, queue, false) && CountReceived(events) < MAX_STALE && queue != []
    ensures Drained(start, events + [Received(queue[0])], queue[1..], false)
    ensures CountReceived(events + [Received(queue[0])]) == CountReceived(events) + 1
  {
    ReplaySnoc(start, events, Received(queue[0]));
    CountSnoc(events, Received(queue[0]));
  }

  lemma {:induction false} ReplayConcat(start: seq<Packet>, a: seq<Event>, b: seq<Event>)
    requires Replay(start, a).Some?
    ensures Replay(start, a + b) == Replay(Replay(start, a).value, b)
  {
    if b == [] {
      assert a + b == a;
    } else {
      assert (a + b)[..|a + b| - 1] == a + b[..|b| - 1];
      ReplayConcat(start, a, b[..|b| - 1]);
    }
  }

  lemma CommandJoins(start: seq<Packet>, drain: seq<Event>, rest: seq<Event>, queue: seq<Packet>, role: Role)
    requires Drained(start, drain, [], true)
    requires Awaited(role, rest)
    requires Replay([], rest) == Some(queue)
    ensures Commanded(start, drain, drain + rest, queue, role, true)
  {
    ReplayConcat(start, drain, rest);
    assert (drain + rest)[|drain| + 1..] == rest[1..];
  }
}
