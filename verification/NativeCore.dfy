/** The native whole-pair core: one START or STOP transaction over both speakers. */
module NativeCore {
  import opened Wrappers
  import opened Backend
  import opened World
  import Acquisition
  import Aura
  import Broadcast
  import Gena

  datatype Action = Start | Stop | Shutdown | RecoverStop

  const SETUP: seq<Event> := [World.Teardown, ColdConnect, World.Arm]
  const START_ROLES: seq<Event> := [Write(Enter), Write(BroadcastStart), Write(AuraOn)]
  const STOP_ROLES: seq<Event> := [Write(AuraOff), Write(BroadcastStop), Write(Exit)]
  const START_SCRIPT: seq<Event> := SETUP + START_ROLES
  const STOP_SCRIPT: seq<Event> := SETUP + STOP_ROLES

  /** The one word of which an action's device events are always a prefix. */
  function Script(action: Action, lifecycle: Lifecycle): seq<Event> {
    match action
    case Start => START_SCRIPT
    case Stop => STOP_SCRIPT
    case Shutdown =>
      if lifecycle == Ready || lifecycle == Offline then [World.Teardown] else STOP_SCRIPT + [World.Teardown]
    case RecoverStop => [World.Teardown] + STOP_SCRIPT
  }

  /** What other layers see of the core. */
  datatype View = View(lifecycle: Lifecycle, unresolved: Option<ActionFailure>, bearer: Option<Acquisition.Bearer>)

  function ReceiptLifecycle(action: Action): Lifecycle {
    match action
    case Start => Linked
    case Stop => Ready
    case Shutdown => ShuttingDown
    case RecoverStop => Ready
  }

  function SettledLifecycle(action: Action): Lifecycle {
    if action.Shutdown? then Offline else ReceiptLifecycle(action)
  }

  ghost predicate ViewOk(v: View) {
    && (v.unresolved.Some? ==> v.lifecycle == Degraded && v.unresolved.value.backend == NativePair)
    && (v.bearer.Some? ==> Acquisition.RouteMatchesTransport(v.bearer.value))
  }

  /** What the last device event leaves in the bearer slot.  Only the health check before an
      Aura command may still drop a connected bearer. */
  ghost predicate SlotFits(devices: seq<Event>, bearer: Option<Acquisition.Bearer>) {
    devices != [] ==>
      var last := devices[|devices| - 1];
      && (last.Teardown? ==> bearer.None?)
      && (last.ColdConnect? ==> bearer.Some?)
      && (last.Write? && last.role != BroadcastStart ==> bearer.Some?)
  }

  function BroadcastOf(action: Action): Gena.Action {
    if action.Start? then Gena.StartBroadcast else Gena.StopBroadcast
  }

  // ---------------------------------------------------------------- answers on the log

  predicate OfBroadcaster(role: Role) { role == BroadcastStart || role == BroadcastStop }

  predicate OfAura(role: Role) { role == AuraOn || role == AuraOff }

  /** Whether what follows a role write is its own positive answer: for the JBL roles the logged
      answer, for the broadcaster the write response behind notifications only, for Aura the exact
      acknowledgement as the first packet received. */
  predicate Positive(role: Role, rest: seq<Event>) {
    rest != [] &&
    match rest[0]
    case Answered(answered) => answered == role && !OfBroadcaster(role) && !OfAura(role)
    case GattReply(packet) =>
      OfBroadcaster(role) && (packet == [0x13] || (|packet| >= 1 && packet[0] == 0x1b && Positive(role, rest[1..])))
    case Arrived(_) => OfAura(role) && Positive(role, rest[1..])
    case Received(packet) => OfAura(role) && packet == [0x1b, 0xec, 0x03, 0xaa, 0x00, 0x02, 0x13, 0x00]
    case _ => false
  }

  /** Role writes and their answers: with `all` every write has its positive answer, without it
      every write that a later device event follows. */
  predicate Answers(events: seq<Event>, all: bool) {
    events != [] ==>
      && (events[0].Write? && (all || Devices(events[1..]) != []) ==> Positive(events[0].role, events[1..]))
      && Answers(events[1..], all)
  }

  predicate AllAnswered(events: seq<Event>) { Answers(events, true) }

  /** No device event follows a role write that was not answered positively. */
  predicate Orderly(events: seq<Event>) { Answers(events, false) }

  /** What the recursion says, write by write. */
  lemma {:induction false} AnswersMeaning(events: seq<Event>, all: bool)
    ensures Answers(events, all) <==>
            forall i :: 0 <= i < |events| && events[i].Write? && (all || Devices(events[i + 1..]) != []) ==>
              Positive(events[i].role, events[i + 1..])
  {
    if events != [] {
      var rest := events[1..];
      AnswersMeaning(rest, all);
      assert forall i :: 0 <= i < |rest| ==> rest[i] == events[i + 1] && rest[i + 1..] == events[i + 2..];
      if forall i :: 0 <= i < |events| && events[i].Write? && (all || Devices(events[i + 1..]) != []) ==>
           Positive(events[i].role, events[i + 1..])
      {
        forall i | 0 <= i < |rest| && rest[i].Write? && (all || Devices(rest[i + 1..]) != [])
          ensures Positive(rest[i].role, rest[i + 1..])
        {
          assert events[i + 1].Write?;
        }
      } else {
        var i :| 0 <= i < |events| && events[i].Write? && (all || Devices(events[i + 1..]) != [])
                 && !Positive(events[i].role, events[i + 1..]);
        if i > 0 { assert rest[i - 1].Write?; }
      }
    }
  }

  /** A phase that went through has no fault and only answered writes; one that did not has a fault,
      and nothing was sent to a device after an unanswered write. */
  ghost predicate Tidy(events: seq<Event>, ok: bool) {
    Orderly(events) && (Fault in events <==> !ok) && (ok ==> AllAnswered(events))
  }

  lemma {:induction false} PositiveExtends(role: Role, a: seq<Event>, b: seq<Event>)
    requires Positive(role, a)
    ensures Positive(role, a + b)
  {
    var all := a + b;
    assert all[0] == a[0] && all[1..] == a[1..] + b;
    if a[0].Arrived? || (a[0].GattReply? && a[0].packet != [0x13]) { PositiveExtends(role, a[1..], b); }
  }

  lemma {:induction false} AnswersConcat(a: seq<Event>, b: seq<Event>, all: bool)
    requires Answers(a, true) && Answers(b, all)
    ensures Answers(a + b, all)
  {
    if a == [] {
      assert a + b == b;
    } else {
      assert (a + b)[0] == a[0] && (a + b)[1..] == a[1..] + b;
      AnswersConcat(a[1..], b, all);
      if a[0].Write? { PositiveExtends(a[0].role, a[1..], b); }
    }
  }

  lemma {:induction false} AnswersThenSilence(a: seq<Event>, b: seq<Event>)
    requires Answers(a, false) && Silent(b)
    ensures Answers(a + b, false)
  {
    if a == [] {
      assert a + b == b;
      AnswersWithoutWrites(b);
    } else {
      assert (a + b)[0] == a[0] && (a + b)[1..] == a[1..] + b;
      AnswersThenSilence(a[1..], b);
      DevicesConcat(a[1..], b);
      DevicesAreSilent(b);
      if a[0].Write? && Devices(a[1..]) != [] { PositiveExtends(a[0].role, a[1..], b); }
    }
  }

  lemma {:induction false} AnswersWithoutWrites(events: seq<Event>)
    requires forall i :: 0 <= i < |events| ==> !events[i].Write?
    ensures Answers(events, true) && Answers(events, false)
  {
    if events != [] { AnswersWithoutWrites(events[1..]); }
  }

  /** An unanswered write stays unanswered in a longer log that ends the same way. */
  lemma {:induction false} AnsweredSuffix(a: seq<Event>, b: seq<Event>)
    ensures AllAnswered(a + b) ==> AllAnswered(b)
  {
    if a == [] {
      assert a + b == b;
    } else {
      assert (a + b)[1..] == a[1..] + b;
      AnsweredSuffix(a[1..], b);
    }
  }

  lemma TidyThen(a: seq<Event>, b: seq<Event>, ok: bool)
    requires Tidy(a, true) && Tidy(b, ok)
    ensures Tidy(a + b, ok)
  {
    AnswersConcat(a, b, false);
    if ok { AnswersConcat(a, b, true); }
  }

  lemma TidyAbandoned(a: seq<Event>, b: seq<Event>)
    requires Tidy(a, false) && Silent(b)
    ensures Tidy(a + b, false)
  {
    AnswersThenSilence(a, b);
  }

  /** Without a role write only the fault matters. */
  lemma {:induction false} TidyWithoutWrites(events: seq<Event>)
    requires forall i :: 0 <= i < |events| ==> !events[i].Write?
    ensures Tidy(events, Fault !in events)
  {
    AnswersWithoutWrites(events);
  }

  /** A write followed by nothing that a device sees. */
  lemma TidySingle(before: seq<Event>, role: Role, rest: seq<Event>, ok: bool)
    requires Silent(before) && Silent(rest) && Fault !in before && (Fault in rest <==> !ok)
    requires ok ==> Positive(role, rest)
    ensures Tidy(before + [Write(role)] + rest, ok)
    ensures AllAnswered(before + [Write(role)] + rest) ==> Positive(role, rest)
  {
    var write := [Write(role)] + rest;
    assert write[0] == Write(role) && write[1..] == rest;
    DevicesAreSilent(rest);
    AnswersWithoutWrites(rest);
    AnswersWithoutWrites(before);
    assert Answers(write, false) && (ok ==> Answers(write, true));
    World.Assoc(before, [Write(role)], rest);
    AnswersConcat(before, write, false);
    if ok { AnswersConcat(before, write, true); }
    AnsweredSuffix(before, write);
  }

  lemma {:induction false} PositiveReplies(role: Role, replies: seq<Packet>, rest: seq<Event>)
    requires OfBroadcaster(role) && Broadcast.Responded(replies)
    ensures Positive(role, Broadcast.Replies(replies) + rest)
  {
    var events := Broadcast.Replies(replies) + rest;
    if |replies| > 1 {
      assert replies[0] == replies[0];
      assert Broadcast.IsNotification(replies[0]);
      PositiveReplies(role, replies[1..], rest);
      assert events[1..] == Broadcast.Replies(replies[1..]) + rest;
    }
  }

  lemma {:induction false} PositiveArrivals(role: Role, events: seq<Event>)
    requires OfAura(role) && events != []
    requires forall m :: 0 <= m < |events| - 1 ==> events[m].Arrived?
    requires events[|events| - 1] == Received([0x1b, 0xec, 0x03, 0xaa, 0x00, 0x02, 0x13, 0x00])
    ensures Positive(role, events)
  {
    if |events| > 1 { PositiveArrivals(role, events[1..]); }
  }

  /** Packets behind a write are positive only with the acknowledgement. */
  lemma {:induction false} PositiveNeedsAcknowledgement(role: Role, packets: seq<Event>)
    requires OfAura(role) && Aura.PacketsOnly(packets) && QueueEmpty !in packets
    requires forall m :: 0 <= m < |packets| - 1 ==> !packets[m].Received?
    requires Positive(role, packets + [Fault])
    ensures packets != [] && packets[|packets| - 1].Received?
    ensures packets[|packets| - 1].packet == [0x1b, 0xec, 0x03, 0xaa, 0x00, 0x02, 0x13, 0x00]
  {
    if |packets| > 1 {
      assert packets[0] in packets;
      assert (packets + [Fault])[1..] == packets[1..] + [Fault];
      PositiveNeedsAcknowledgement(role, packets[1..]);
    } else if |packets| == 1 {
      assert packets[0] in packets;
      assert (packets + [Fault])[1..] == [Fault];
    }
  }

  // ---------------------------------------------------------------- contracts

  /** Whether an action that met a fault may still say that nothing was sent. */
  ghost predicate MayReject(lifecycle: Lifecycle, action: Action, events: seq<Event>) {
    && !HasWrite(events)
    && match action
       case Start => true
       case Stop => true
       case Shutdown => lifecycle != Ready && lifecycle != Offline
       case RecoverStop => Devices(events) != []
  }

  /** How an action that had something to do ends, stated over its part of the log: accepted if and
      only if it met no fault, rejected if and only if it met one before any write. */
  ghost predicate Ran(lifecycle: Lifecycle, action: Action, post: View, result: ActionResult, events: seq<Event>) {
    && ViewOk(post) && OfBackend(events) && Tidy(events, result.Accepted?)
    && Devices(events) <= Script(action, lifecycle) && SlotFits(Devices(events), post.bearer)
    && (Devices(events) == Script(action, lifecycle) && AllAnswered(events) ==> result.Accepted?)
    && result.Backend() == NativePair
    && match result
       case RejectedBeforeSend(_) =>
         MayReject(lifecycle, action, events) && post.unresolved.None? && post.lifecycle == Degraded
       case OutcomeUnknown(failure) =>
         !MayReject(lifecycle, action, events) && post.unresolved == Some(failure) && post.lifecycle == Degraded
       case Accepted(receipt) =>
         && Devices(events) == Script(action, lifecycle) && post.unresolved.None?
         && receipt.lifecycle == ReceiptLifecycle(action) && post.lifecycle == SettledLifecycle(action)
         && !receipt.idempotent && Evident(action, receipt.evidence, events)
  }

  /** The evidence is what the log shows: a subscription means a business proof. */
  ghost predicate Evident(action: Action, evidence: Evidence, events: seq<Event>) {
    && (action.Shutdown? ==> evidence == LifecycleAcknowledgement)
    && (!action.Shutdown? && Subscribed in events ==>
          evidence == BroadcastBusinessNotification && Broadcast.BusinessProof(BroadcastOf(action), events))
    && (!action.Shutdown? && Subscribed !in events ==> evidence == BroadcastAcknowledgementOnly)
  }

  /** A START or STOP that finds its own lifecycle over a live bearer has nothing to do. */
  predicate Idle(lifecycle: Lifecycle, action: Action, events: seq<Event>) {
    (action.Start? || action.Stop?) && lifecycle == ReceiptLifecycle(action) && events == [Probe(true)]
  }

  /** The bearer is looked at first exactly when the lifecycle already is the wanted one. */
  predicate Looked(lifecycle: Lifecycle, action: Action, events: seq<Event>) {
    (action.Start? || action.Stop?) ==>
      if lifecycle == ReceiptLifecycle(action) then events != [] && events[0] == Probe(false)
      else events != [] ==> !events[0].Probe?
  }

  ghost predicate Outcome(lifecycle: Lifecycle, action: Action, post: View, result: ActionResult, events: seq<Event>) {
    if Idle(lifecycle, action, events)
    then && ViewOk(post) && post.unresolved.None? && post.lifecycle == lifecycle && post.bearer.Some?
         && result == Accepted(Receipt(NativePair, lifecycle, LocalSessionState, true))
    else Looked(lifecycle, action, events) && Ran(lifecycle, action, post, result, events)
  }

  /** What one core action promises to the layers above. */
  ghost predicate Step(pre: View, action: Action, post: View, result: ActionResult, events: seq<Event>) {
    if pre.unresolved.Some? && !action.RecoverStop?
    then result == OutcomeUnknown(pre.unresolved.value) && events == [] && post == pre
    else Outcome(pre.lifecycle, action, post, result, events) && Kept(pre, post, events)
  }

  /** Without a device event a bearer can only have been found dead. */
  ghost predicate Kept(pre: View, post: View, events: seq<Event>) {
    Devices(events) == [] ==> post.bearer == pre.bearer || post.bearer.None?
  }

  /** How the role-writing half of a START or STOP ends; `events` is its part of the log. */
  ghost predicate Ended(action: Action, post: View, result: ActionResult, events: seq<Event>) {
    && ViewOk(post) && result.Backend() == NativePair && OfBackend(events) && Tidy(events, result.Accepted?)
    && Devices(events) <= Roles(action) && (Devices(events) != [] ==> SlotFits(Devices(events), post.bearer))
    && (Devices(events) == Roles(action) && AllAnswered(events) ==> result.Accepted?)
    && match result
       case RejectedBeforeSend(_) => Devices(events) == [] && post.unresolved.None? && post.lifecycle == Degraded
       case OutcomeUnknown(failure) =>
         Devices(events) != [] && post.unresolved == Some(failure) && post.lifecycle == Degraded
       case Accepted(receipt) =>
         && Devices(events) == Roles(action) && post.unresolved.None? && !receipt.idempotent
         && receipt.lifecycle == post.lifecycle == ReceiptLifecycle(action)
  }

  function Roles(action: Action): seq<Event> { if action.Start? then START_ROLES else STOP_ROLES }

  /** How the second and third role write of a START or STOP end. */
  ghost predicate Continued(action: Action, post: View, result: ActionResult, events: seq<Event>) {
    && ViewOk(post) && result.Backend() == NativePair && OfBackend(events) && Tidy(events, result.Accepted?)
    && Devices(events) <= Roles(action)[1..]
    && (Devices(events) == Roles(action)[1..] && AllAnswered(events) ==> result.Accepted?)
    && (Devices(events) != [Write(BroadcastStart)] ==> post.bearer.Some?)
    && match result
       case RejectedBeforeSend(_) => false
       case OutcomeUnknown(failure) => post.unresolved == Some(failure) && post.lifecycle == Degraded
       case Accepted(receipt) =>
         && Devices(events) == Roles(action)[1..] && post.unresolved.None? && !receipt.idempotent
         && receipt.lifecycle == post.lifecycle == ReceiptLifecycle(action)
  }

  /** A phase of the log and its device events. */
  ghost predicate Shows(events: seq<Event>, devices: seq<Event>) { OfBackend(events) && Devices(events) == devices }

  lemma ShowsBoth(a: seq<Event>, x: seq<Event>, b: seq<Event>, y: seq<Event>)
    requires Shows(a, x) && Shows(b, y)
    ensures Shows(a + b, x + y)
  {
    DevicesConcat(a, b);
  }

  /** An answered phase and the phase after it. */
  lemma JoinPhases(a: seq<Event>, x: seq<Event>, b: seq<Event>, y: seq<Event>, ok: bool)
    requires Shows(a, x) && Tidy(a, true) && Shows(b, y) && Tidy(b, ok)
    ensures Shows(a + b, x + y) && Tidy(a + b, ok) && (AllAnswered(a + b) ==> AllAnswered(b))
    ensures HasWrite(a + b) <==> HasWrite(x) || HasWrite(y)
  {
    ShowsBoth(a, x, b, y);
    TidyThen(a, b, ok);
    AnsweredSuffix(a, b);
    DevicesKeepWrites(a + b);
    WritesConcat(x, y);
  }

  lemma SilentShows(events: seq<Event>)
    requires Silent(events)
    ensures Shows(events, [])
  {
    DevicesAreSilent(events);
  }

  lemma Completes(action: Action, post: View, result: ActionResult, first: seq<Event>, rest: seq<Event>)
    requires Shows(first, [Roles(action)[0]]) && Tidy(first, true) && Continued(action, post, result, rest)
    ensures Ended(action, post, result, first + rest)
  {
    JoinPhases(first, [Roles(action)[0]], rest, Devices(rest), result.Accepted?);
  }

  /** The action stopped after the given device events of its second half. */
  lemma ContinuedUnknown(action: Action, post: View, result: ActionResult, events: seq<Event>, devices: seq<Event>)
    requires Shows(events, devices) && Tidy(events, false) && devices <= Roles(action)[1..] && ViewOk(post)
    requires devices != [Write(BroadcastStart)] ==> post.bearer.Some?
    requires devices == Roles(action)[1..] ==> !AllAnswered(events)
    requires result.OutcomeUnknown? && result.Backend() == NativePair
    requires post.unresolved == Some(result.failure) && post.lifecycle == Degraded
    ensures Continued(action, post, result, events)
  {
  }

  /** The third role write, after two answered ones. */
  lemma ThirdWrite(action: Action, post: View, result: ActionResult, before: seq<Event>, steps: seq<Event>, sent: bool)
    requires (action.Start? || action.Stop?) && ViewOk(post) && result.Backend() == NativePair
    requires Shows(before, [Roles(action)[1]]) && Tidy(before, true)
    requires Shows(steps, if sent then [Roles(action)[2]] else []) && Tidy(steps, result.Accepted?)
    requires sent && !result.Accepted? ==> !AllAnswered(steps)
    requires sent || action.Stop? ==> post.bearer.Some?
    requires match result
             case RejectedBeforeSend(_) => false
             case OutcomeUnknown(failure) => post.unresolved == Some(failure) && post.lifecycle == Degraded
             case Accepted(receipt) =>
               && sent && post.unresolved.None? && !receipt.idempotent
               && receipt.lifecycle == post.lifecycle == ReceiptLifecycle(action)
    ensures Continued(action, post, result, before + steps)
  {
    JoinPhases(before, [Roles(action)[1]], steps, if sent then [Roles(action)[2]] else [], result.Accepted?);
  }

  /** The first role write failed: nothing else was written. */
  lemma Abandons(action: Action, post: View, result: ActionResult, first: seq<Event>, more: seq<Event>, sent: bool)
    requires Shows(first, if sent then [Roles(action)[0]] else []) && Tidy(first, false) && Silent(more)
    requires ViewOk(post) && result.Backend() == NativePair && (sent ==> post.bearer.Some?)
    requires post.lifecycle == Degraded
    requires if sent then result.OutcomeUnknown? && post.unresolved == Some(result.failure)
             else result.RejectedBeforeSend? && post.unresolved.None?
    ensures Ended(action, post, result, first + more)
  {
    SilentShows(more);
    ShowsBoth(first, Devices(first), more, []);
    TidyAbandoned(first, more);
  }

  /** An action as it runs, before the look at an already wanted lifecycle is put in front. */
  ghost predicate RanFrom(pre: View, action: Action, post: View, result: ActionResult, events: seq<Event>) {
    && Ran(pre.lifecycle, action, post, result, events) && Kept(pre, post, events)
    && events != [] && !events[0].Probe?
  }

  lemma SetupThenRoles(pre: View, action: Action, post: View, result: ActionResult, setup: seq<Event>,
                       events: seq<Event>)
    requires action.Start? || action.Stop?
    requires Shows(setup, SETUP) && Tidy(setup, true) && setup != [] && !setup[0].Probe?
    requires Ended(action, post, result, events)
    requires result.Accepted? ==> Evident(action, result.receipt.evidence, setup + events)
    ensures RanFrom(pre, action, post, result, setup + events)
  {
    JoinPhases(setup, SETUP, events, Devices(events), result.Accepted?);
    RolesAfterSetup(action, Devices(events));
  }

  lemma RolesAfterSetup(action: Action, devices: seq<Event>)
    requires (action.Start? || action.Stop?) && devices <= Roles(action)
    ensures forall lifecycle :: SETUP + devices <= Script(action, lifecycle)
    ensures forall lifecycle :: SETUP + devices == Script(action, lifecycle) <==> devices == Roles(action)
    ensures !HasWrite(SETUP) && (HasWrite(devices) <==> devices != [])
    ensures devices != [] ==> (SETUP + devices)[|SETUP + devices| - 1] == devices[|devices| - 1]
    ensures devices == [] ==> SETUP + devices == SETUP
  {
    if devices != [] { assert devices[0] == Roles(action)[0]; }
    if SETUP + devices == SETUP + Roles(action) {
      assert (SETUP + devices)[3..] == devices && (SETUP + Roles(action))[3..] == Roles(action);
    }
  }

  lemma SetupOnly(pre: View, action: Action, post: View, result: ActionResult, events: seq<Event>)
    requires action.Start? || action.Stop?
    requires post.unresolved.None? && post.lifecycle == Degraded && ViewOk(post)
    requires OfBackend(events) && Tidy(events, false) && events != [] && !events[0].Probe?
    requires Devices(events) <= SETUP && SlotFits(Devices(events), post.bearer)
    requires Devices(events) == [] ==> post.bearer == pre.bearer || post.bearer.None?
    requires result.RejectedBeforeSend? && result.Backend() == NativePair
    ensures RanFrom(pre, action, post, result, events)
  {
    DevicesKeepWrites(events);
  }

  /** Puts the look at the bearer in front of a run. */
  lemma LookThenRun(pre: View, between: View, action: Action, post: View, result: ActionResult, look: seq<Event>,
                    events: seq<Event>)
    requires (action.Start? || action.Stop?) && pre.unresolved.None?
    requires between == pre.(bearer := between.bearer) && (between.bearer == pre.bearer || between.bearer.None?)
    requires look == if pre.lifecycle == ReceiptLifecycle(action) then [Probe(false)] else []
    requires RanFrom(between, action, post, result, events)
    ensures Step(pre, action, post, result, look + events)
    ensures Ran(pre.lifecycle, action, post, result, look + events)
  {
    var all := look + events;
    if look == [] {
      assert all == events;
    } else {
      ProbeFirst(pre.lifecycle, action, post, result, events);
      assert all[0] == Probe(false);
    }
    assert all[0] != Probe(true);
    RanIsStep(pre, action, post, result, all);
  }

  lemma RanIsStep(pre: View, action: Action, post: View, result: ActionResult, events: seq<Event>)
    requires pre.unresolved.None? && Ran(pre.lifecycle, action, post, result, events) && Kept(pre, post, events)
    requires Looked(pre.lifecycle, action, events) && events != [] && events[0] != Probe(true)
    ensures Step(pre, action, post, result, events)
  {
    assert !Idle(pre.lifecycle, action, events);
  }

  lemma ProbeFirst(lifecycle: Lifecycle, action: Action, post: View, result: ActionResult, events: seq<Event>)
    requires (action.Start? || action.Stop?) && Ran(lifecycle, action, post, result, events)
    ensures Ran(lifecycle, action, post, result, [Probe(false)] + events)
    ensures Devices([Probe(false)] + events) == Devices(events)
  {
    var look := [Probe(false)];
    SilentShows(look);
    TidyWithoutWrites(look);
    JoinPhases(look, [], events, Devices(events), result.Accepted?);
    assert [] + Devices(events) == Devices(events);
    DevicesKeepWrites(events);
    if result.Accepted? && Subscribed in events { Broadcast.ProofAfter(BroadcastOf(action), look, events); }
  }

  datatype JblWrite = JblAccepted | JblCommandRejected | JblNotSent | JblOutcomeUnknown

  class Core {
    const aura: Aura.ControlCore
    const observer: Broadcast.Coordinator
    ghost const log: Log
    var lifecycle: Lifecycle
    var unresolved: Option<ActionFailure>

    constructor (confirmation: Broadcast.Confirmation, ghost log: Log)
      ensures Valid() && fresh(Owned()) && this.log == log
      ensures Look() == View(Offline, None, None)
    {
      aura := new Aura.ControlCore(log);
      observer := new Broadcast.Coordinator(confirmation, log);
      this.log := log;
      lifecycle, unresolved := Offline, None;
    }

    ghost function Owned(): set<object> { {this, aura, observer.mutation, observer.business} }

    ghost predicate Wired() { aura.log == log && observer.log == log && observer.Wired() }

    ghost function Look(): View
      reads this, aura
    {
      View(lifecycle, unresolved, aura.bearer)
    }

    ghost predicate Valid()
      reads this, aura, observer.mutation, observer.business
    {
      && Wired() && aura.Valid() && observer.Released() && ViewOk(Look())
      && (aura.unresolved.Some? ==> unresolved.Some?)
    }

    /** Healthy if and only if nothing is latched, the lifecycle is settled, and the bearer is alive or
        cleanly absent; `look` is what was seen of the bearer. */
    method CurrentHealth() returns (health: Backend.Health, ghost bearer: Aura.Health, ghost look: seq<Event>)
      requires Valid()
      modifies aura, log
      ensures Valid() && lifecycle == old(lifecycle) && unresolved == old(unresolved)
      ensures aura.bearer == old(aura.bearer) || aura.bearer.None?
      ensures health.backend == NativePair
      ensures health.level == Healthy <==>
                unresolved.None? && (lifecycle == Ready || lifecycle == Linked)
                && (bearer == Aura.Health.Ready || bearer == Aura.Health.Offline)
      ensures health.reportedError <==>
                !(health.level == Healthy
                  || (unresolved.None? && lifecycle == Offline && bearer == Aura.Health.Offline))
      ensures health.lifecycle == if health.reportedError then Degraded else lifecycle
      ensures match aura.bearer
              case None => health.transport == UnresolvedTransport && health.route == Acquisition.Unresolved
              case Some(b) => health.transport == (if b.transport.Le? then Le else BrEdr) && health.route == b.route
      ensures look == if old(aura.unresolved).Some? then [] else [Probe(bearer == Aura.Health.Ready)]
      ensures log.events == old(log.events) + (look + [HealthRead(health)])
    {
      var auraHealth := aura.CurrentHealth();
      bearer, look := auraHealth, if aura.unresolved.Some? then [] else [Probe(auraHealth == Aura.Health.Ready)];
      var healthy := unresolved.None? && (lifecycle == Ready || lifecycle == Linked)
                     && (auraHealth == Aura.Health.Ready || auraHealth == Aura.Health.Offline);
      var offline := unresolved.None? && auraHealth == Aura.Health.Offline && lifecycle == Offline;
      var transport := match aura.bearer
        case None => UnresolvedTransport
        case Some(b) => if b.transport.Le? then Le else BrEdr;
      var route := match aura.bearer
        case None => Acquisition.Unresolved
        case Some(b) => b.route;
      var reported := if healthy || offline then lifecycle else Degraded;
      health := NewHealth(NativePair, reported, !healthy && !offline, transport, route);
      World.Assoc(old(log.events), look, [HealthRead(health)]);
      log.events := log.events + [HealthRead(health)];
    }

    method LatchUnknown(reason: BackendError, observed: Lifecycle) returns (result: ActionResult)
      modifies this
      ensures result == OutcomeUnknown(ActionFailure(NativePair, reason, Some(observed)))
      ensures unresolved == Some(result.failure) && lifecycle == Degraded
    {
      var failure := ActionFailure(NativePair, reason, Some(observed));
      unresolved, lifecycle := Some(failure), Degraded;
      result := OutcomeUnknown(failure);
    }

    method Reject(reason: BackendError) returns (result: ActionResult)
      requires unresolved.None?
      modifies this`lifecycle
      ensures result == RejectedBeforeSend(ActionFailure(NativePair, reason, Some(Degraded)))
      ensures lifecycle == Degraded
    {
      lifecycle := Degraded;
      result := RejectedBeforeSend(ActionFailure(NativePair, reason, Some(Degraded)));
    }

    /** Every non-idempotent transaction starts from an empty bearer slot. */
    method AcquireFreshBearer() returns (r: Result<(), BackendError>, ghost events: seq<Event>)
      requires Wired() && aura.Valid() && aura.unresolved.None?
      modifies aura, log
      ensures aura.Valid() && aura.unresolved.None?
      ensures r.Ok? ==> events == [World.Teardown] + [ColdConnect] && aura.bearer.Some?
      ensures r.Err? ==>
                || (events == [Fault] && aura.bearer == old(aura.bearer))
                || (events == [World.Teardown] + [Fault] && aura.bearer.None?)
      ensures log.events == old(log.events) + events
    {
      var down := aura.Shutdown();
      if !down { return Err(Unavailable), [Fault]; }
      events := [World.Teardown];
      var connected, steps := aura.ConnectVerified();
      World.Assoc(old(log.events), events, steps);
      events := events + steps;
      if connected.Err? { return Err(AuraAcquisition(connected.error)), events; }
      r := Ok(());
    }

    /** Fresh bearer, then the armed broadcaster; nothing is written. */
    method Prepare(during: Lifecycle) returns (r: Result<(), BackendError>, ghost events: seq<Event>)
      requires Wired() && aura.Valid() && aura.unresolved.None? && observer.Released()
      modifies this`lifecycle, aura, observer.mutation, observer.business, log
      ensures aura.Valid() && aura.unresolved.None? && log.events == old(log.events) + events
      ensures OfBackend(events) && Tidy(events, r.Ok?) && events != [] && !events[0].Probe?
      ensures Devices(events) <= SETUP && SlotFits(Devices(events), aura.bearer)
      ensures Devices(events) == [] ==> aura.bearer == old(aura.bearer)
      ensures r.Ok? ==> lifecycle == during && aura.bearer.Some? && Devices(events) == SETUP
      ensures r.Ok? ==> events == if observer.confirmation.GenaMode? then CONFIRMED_SETUP else SETUP
      ensures r.Ok? && observer.confirmation.AckMode? ==> observer.business.subscription.None?
      ensures r.Err? ==> observer.Released()
    {
      r, events := AcquireFreshBearer();
      if r.Err? {
        AcquireFailed(events, aura.bearer, old(aura.bearer));
        return;
      }
      lifecycle := during;
      ghost var first := events;
      var armed, steps := ArmObserver();
      World.Assoc(old(log.events), first, steps);
      PreparedShows(steps, observer.confirmation.GenaMode?, armed.Ok?);
      SetupPrefixes();
      events := first + steps;
      if armed.Err? { r := Err(JblBroadcastResult(armed.error)); }
    }

    method ArmObserver() returns (r: Result<(), BroadcastFailure>, ghost events: seq<Event>)
      requires Wired() && observer.Released()
      modifies observer.mutation, observer.business, log
      ensures log.events == old(log.events) + events && Shows(events, if r.Ok? then [World.Arm] else [])
      ensures Tidy(events, r.Ok?)
      ensures r.Ok? ==> events == if observer.confirmation.GenaMode? then [Subscribed] + [World.Arm] else [World.Arm]
      ensures r.Ok? && observer.confirmation.AckMode? ==> observer.business.subscription.None?
      ensures r.Err? ==> observer.Released()
    {
      r, events := observer.Arm();
      if r.Ok? {
        ArmedShows(observer.confirmation.GenaMode?);
      } else {
        SilentShows(events);
        TidyWithoutWrites(events);
      }
    }

    /** Gives the armed broadcaster up; `written` tells whether the first role write began. */
    method Abandon(written: bool, reason: BackendError, observed: Lifecycle)
      returns (result: ActionResult, ghost events: seq<Event>)
      requires Wired() && unresolved.None?
      modifies this, observer.mutation, observer.business, log
      ensures observer.Released() && lifecycle == Degraded
      ensures log.events == old(log.events) + events && Silent(events)
      ensures if written
              then result == OutcomeUnknown(ActionFailure(NativePair, reason, Some(observed)))
                   && unresolved == Some(result.failure)
              else result == RejectedBeforeSend(ActionFailure(NativePair, BackendReportedFailure, Some(Degraded)))
                   && unresolved.None?
    {
      ghost var more := observer.Cancel();
      events := more;
      if written { result := LatchUnknown(reason, observed); } else { result := Reject(BackendReportedFailure); }
    }

    function Evidence(e: Broadcast.BroadcastEvidence): Backend.Evidence {
      if e.AckOnly? then BroadcastAcknowledgementOnly else BroadcastBusinessNotification
    }

    /** One JBL role write and its answer. */
    method JblPlayTogether(role: Role) returns (answer: JblWrite, ghost events: seq<Event>)
      requires role == Enter || role == Exit
      modifies log
      ensures events == JblLog(role, answer) && log.events == old(log.events) + events
      ensures Shows(events, if answer.JblNotSent? then [] else [Write(role)])
      ensures Tidy(events, answer.JblAccepted?) && Subscribed !in events
      ensures !answer.JblAccepted? && !answer.JblNotSent? ==> !AllAnswered(events)
    {
      answer := *;
      events := JblLog(role, answer);
      log.events := log.events + events;
      JblShows(role, answer);
    }

    /** One Aura role command on the fresh bearer. */
    method AuraRole(command: Aura.Command) returns (answer: Aura.ActionResult, ghost events: seq<Event>)
      requires Wired() && aura.Valid() && aura.unresolved.None?
      modifies aura, log
      ensures aura.Valid() && log.events == old(log.events) + events
      ensures Shows(events, if answer.RejectedBeforeSend? then [] else [Write(Aura.RoleOf(command))])
      ensures Tidy(events, answer.Accepted?) && (aura.unresolved.Some? <==> answer.OutcomeUnknown?)
      ensures answer.OutcomeUnknown? ==> !AllAnswered(events)
      ensures !answer.RejectedBeforeSend? ==> aura.bearer.Some?
      ensures forall m :: 0 <= m < |events| ==> !events[m].Unsubscribed? && !events[m].Subscribed?
    {
      var sent, wrote, live, polls, drain, command_, steps := aura.Send(command);
      answer, events := sent, steps;
      CommandTidy(live, drain, command_, Aura.RoleOf(command), wrote, answer.Accepted?);
      CommandKeepsSubscription(live, drain, command_, Aura.RoleOf(command), wrote, answer.Accepted?);
    }

    method Start() returns (result: ActionResult, ghost events: seq<Event>)
      requires Valid()
      modifies this, aura, observer.mutation, observer.business, log
      ensures Valid() && Step(old(Look()), Action.Start, Look(), result, events)
      ensures log.events == old(log.events) + events
    {
      ghost var pre := old(Look());
      events := [];
      if unresolved.Some? { return OutcomeUnknown(unresolved.value), events; }
      var already, look := Already(Linked);
      if already { return Accepted(Receipt(NativePair, Linked, LocalSessionState, true)), look; }
      ghost var between, rest := Look(), [];
      result, rest := RunStart();
      LookThenRun(pre, between, Action.Start, Look(), result, look, rest);
      World.Assoc(old(log.events), look, rest);
      events := look + rest;
    }

    /** Whether the session is in the wanted state over a live bearer; the bearer is looked at only
        when the lifecycle is the wanted one. */
    method Already(wanted: Lifecycle) returns (already: bool, ghost look: seq<Event>)
      requires Valid() && unresolved.None?
      modifies aura, log
      ensures Valid() && Look() == old(Look()).(bearer := aura.bearer)
      ensures aura.bearer == old(aura.bearer) || aura.bearer.None?
      ensures look == if lifecycle == wanted then [Probe(already)] else []
      ensures already ==> lifecycle == wanted && aura.bearer.Some?
      ensures log.events == old(log.events) + look
    {
      look := [];
      if lifecycle != wanted { return false, look; }
      var health := aura.CurrentHealth();
      already := health == Aura.Health.Ready;
      look := [Probe(already)];
    }

    /** A START that is not already done. */
    method RunStart() returns (result: ActionResult, ghost events: seq<Event>)
      requires Valid() && unresolved.None?
      modifies this, aura, observer.mutation, observer.business, log
      ensures Valid() && RanFrom(old(Look()), Action.Start, Look(), result, events)
      ensures log.events == old(log.events) + events
    {
      ghost var pre := Look();
      var prepared;
      prepared, events := Prepare(Linking);
      if prepared.Err? {
        result := Reject(prepared.error);
        SetupOnly(pre, Action.Start, Look(), result, events);
        return;
      }
      ghost var setup, roles, replies, codes := events, [], [], [];
      result, roles, replies, codes := StartRoles();
      if result.Accepted? {
        StartEvident(observer.confirmation, result.receipt.evidence, setup, roles, replies, codes);
      }
      SetupThenRoles(pre, Action.Start, Look(), result, setup, roles);
      World.Assoc(old(log.events), setup, roles);
      events := setup + roles;
    }

    /** Enter, start the broadcaster, then put Aura into the receiving role. */
    method StartRoles()
      returns (result: ActionResult, ghost events: seq<Event>, ghost replies: seq<Packet>,
               ghost codes: seq<Option<int>>)
      requires Wired() && aura.Valid() && aura.unresolved.None? && aura.bearer.Some? && unresolved.None?
      requires observer.confirmation.AckMode? ==> observer.business.subscription.None?
      modifies this, aura, observer.mutation, observer.business, log
      ensures Valid() && Ended(Action.Start, Look(), result, events)
      ensures log.events == old(log.events) + events
      ensures result.Accepted? ==>
                && |events| >= 2 && events[0] == Write(Enter) && events[1] == Answered(Enter)
                && Supported(Gena.StartBroadcast, observer.confirmation, result.receipt.evidence, events[2..], replies,
                             codes)
    {
      replies, codes := [], [];
      var entered, first := JblPlayTogether(Enter);
      ghost var rest;
      if !entered.JblAccepted? {
        result, rest := Abandon(!entered.JblNotSent?, JblEnterOutcomeUnknown, Linking);
        World.Assoc(old(log.events), first, rest);
        Abandons(Action.Start, Look(), result, first, rest, !entered.JblNotSent?);
        events := first + rest;
        return;
      }
      result, rest, replies, codes := StartBroadcastThenJoin();
      World.Assoc(old(log.events), first, rest);
      Completes(Action.Start, Look(), result, first, rest);
      events := first + rest;
      assert events[2..] == rest;
    }

    /** The second and third START write. */
    method StartBroadcastThenJoin()
      returns (result: ActionResult, ghost events: seq<Event>, ghost replies: seq<Packet>,
               ghost codes: seq<Option<int>>)
      requires Wired() && aura.Valid() && aura.unresolved.None? && aura.bearer.Some? && unresolved.None?
      requires observer.confirmation.AckMode? ==> observer.business.subscription.None?
      modifies this, aura, observer.mutation, observer.business, log
      ensures Valid() && Continued(Action.Start, Look(), result, events) && log.events == old(log.events) + events
      ensures result.Accepted? ==>
                Supported(Gena.StartBroadcast, observer.confirmation, result.receipt.evidence, events, replies, codes)
    {
      var broadcast;
      ghost var sent;
      broadcast, sent, events, replies, codes := ExecuteBroadcast(Gena.StartBroadcast);
      ghost var done := if sent then [Write(BroadcastStart)] else [];
      if broadcast.Err? {
        result := LatchUnknown(JblBroadcastResult(broadcast.error), Linking);
        ContinuedUnknown(Action.Start, Look(), result, events, done);
        return;
      }
      ghost var steps;
      result, steps := Join(Evidence(broadcast.value), events);
      World.Assoc(old(log.events), events, steps);
      SupportedExtends(Gena.StartBroadcast, observer.confirmation, Evidence(broadcast.value), events, steps, replies,
                       codes);
      events := events + steps;
    }

    /** The third START write, after the given first two. */
    method Join(evidence: Backend.Evidence, ghost before: seq<Event>)
      returns (result: ActionResult, ghost steps: seq<Event>)
      requires Wired() && aura.Valid() && aura.unresolved.None? && unresolved.None? && observer.Released()
      requires Shows(before, [Write(BroadcastStart)]) && Tidy(before, true)
      modifies this, aura, log
      ensures Valid() && Continued(Action.Start, Look(), result, before + steps) && Subscribed !in steps
      ensures log.events == old(log.events) + steps
      ensures result.Accepted? ==> result.receipt.evidence == evidence
    {
      var joined;
      joined, steps := AuraRole(Aura.On);
      if !joined.Accepted? {
        var reason := match joined case OutcomeUnknown(reason) => AuraCommand(reason) case _ => AuraStartOutcomeUnknown;
        result := LatchUnknown(reason, Linking);
      } else {
        lifecycle := Linked;
        result := ActionResult.Accepted(Receipt(NativePair, Linked, evidence, false));
      }
      ThirdWrite(Action.Start, Look(), result, before, steps, !joined.RejectedBeforeSend?);
    }

    /** The broadcaster command and what its log shows. */
    method ExecuteBroadcast(action: Gena.Action)
      returns (r: Result<Broadcast.BroadcastEvidence, BroadcastFailure>, ghost wrote: bool, ghost events: seq<Event>,
               ghost replies: seq<Packet>, ghost codes: seq<Option<int>>)
      requires Wired() && (observer.confirmation.AckMode? ==> observer.business.subscription.None?)
      modifies observer.mutation, observer.business, log
      ensures observer.Released() && log.events == old(log.events) + events
      ensures Shows(events, if wrote then [Write(Broadcast.RoleOf(action))] else []) && Tidy(events, r.Ok?)
      ensures r.Ok? ==> wrote && Broadcast.Responded(replies)
      ensures r.Ok? ==>
                r.value == if observer.confirmation.AckMode? then Broadcast.AckOnly else Broadcast.ConfirmedNotification
      ensures r.Ok? ==>
                && (if observer.confirmation.AckMode?
                    then events == [Write(Broadcast.RoleOf(action))] + Broadcast.Replies(replies)
                    else events == Broadcast.ConfirmedLog(action, replies, codes) && Gena.Confirms(action, codes))
    {
      r, wrote, events, replies, codes := observer.Execute(action);
      ExecuteTidy(action, wrote, events, replies, r.Ok?, if r.Ok? && observer.confirmation.GenaMode? then codes
                  else []);
    }

    /** The STOP transaction behind its latch; also the tail of shutdown and recovery. */
    method Stop() returns (result: ActionResult, ghost events: seq<Event>)
      requires Valid()
      modifies this, aura, observer.mutation, observer.business, log
      ensures Valid() && Step(old(Look()), Action.Stop, Look(), result, events)
      ensures result.Accepted? && old(lifecycle) != Ready ==> !result.receipt.idempotent
      ensures log.events == old(log.events) + events
    {
      ghost var pre := old(Look());
      events := [];
      if unresolved.Some? { return OutcomeUnknown(unresolved.value), events; }
      var already, look := Already(Ready);
      if already { return Accepted(Receipt(NativePair, Ready, LocalSessionState, true)), look; }
      ghost var between, rest := Look(), [];
      result, rest := RunStop();
      LookThenRun(pre, between, Action.Stop, Look(), result, look, rest);
      World.Assoc(old(log.events), look, rest);
      events := look + rest;
    }

    method RunStop() returns (result: ActionResult, ghost events: seq<Event>)
      requires Valid() && unresolved.None?
      modifies this, aura, observer.mutation, observer.business, log
      ensures Valid() && RanFrom(old(Look()), Action.Stop, Look(), result, events)
      ensures log.events == old(log.events) + events
    {
      ghost var pre := Look();
      var prepared;
      prepared, events := Prepare(Unlinking);
      if prepared.Err? {
        result := Reject(prepared.error);
        SetupOnly(pre, Action.Stop, Look(), result, events);
        return;
      }
      ghost var setup, roles, n, replies, codes := events, [], 0, [], [];
      result, roles, n, replies, codes := StopRoles();
      if result.Accepted? {
        StopEvident(observer.confirmation, result.receipt.evidence, setup, roles, n, replies, codes);
      }
      SetupThenRoles(pre, Action.Stop, Look(), result, setup, roles);
      World.Assoc(old(log.events), setup, roles);
      events := setup + roles;
    }

    /** Release Aura first, stop the broadcaster, then leave; `n` events belong to the release. */
    method StopRoles()
      returns (result: ActionResult, ghost events: seq<Event>, ghost n: nat, ghost replies: seq<Packet>,
               ghost codes: seq<Option<int>>)
      requires Wired() && aura.Valid() && aura.unresolved.None? && aura.bearer.Some? && unresolved.None?
      requires observer.confirmation.AckMode? ==> observer.business.subscription.None?
      modifies this, aura, observer.mutation, observer.business, log
      ensures Valid() && Ended(Action.Stop, Look(), result, events)
      ensures log.events == old(log.events) + events
      ensures result.Accepted? ==>
                && n <= |events| && (forall m :: 0 <= m < n ==> !events[m].Unsubscribed? && !events[m].Subscribed?)
                && Supported(Gena.StopBroadcast, observer.confirmation, result.receipt.evidence, events[n..], replies,
                             codes)
    {
      replies, codes, n := [], [], 0;
      var left, first := AuraRole(Aura.Off);
      ghost var rest;
      if !left.Accepted? {
        var reason := match left case OutcomeUnknown(reason) => AuraCommand(reason) case _ => BackendReportedFailure;
        result, rest := Abandon(left.OutcomeUnknown?, reason, Unlinking);
        World.Assoc(old(log.events), first, rest);
        Abandons(Action.Stop, Look(), result, first, rest, left.OutcomeUnknown?);
        events := first + rest;
        return;
      }
      result, rest, replies, codes := StopBroadcastThenExit();
      World.Assoc(old(log.events), first, rest);
      Completes(Action.Stop, Look(), result, first, rest);
      events, n := first + rest, |first|;
      assert events[n..] == rest;
    }

    /** The second and third STOP write. */
    method StopBroadcastThenExit()
      returns (result: ActionResult, ghost events: seq<Event>, ghost replies: seq<Packet>,
               ghost codes: seq<Option<int>>)
      requires Wired() && aura.Valid() && aura.bearer.Some? && unresolved.None? && aura.unresolved.None?
      requires observer.confirmation.AckMode? ==> observer.business.subscription.None?
      modifies this, observer.mutation, observer.business, log
      ensures Valid() && Continued(Action.Stop, Look(), result, events) && log.events == old(log.events) + events
      ensures result.Accepted? ==>
                Supported(Gena.StopBroadcast, observer.confirmation, result.receipt.evidence, events, replies, codes)
    {
      var broadcast;
      ghost var sent;
      broadcast, sent, events, replies, codes := ExecuteBroadcast(Gena.StopBroadcast);
      ghost var done := if sent then [Write(BroadcastStop)] else [];
      if broadcast.Err? {
        result := LatchUnknown(JblBroadcastResult(broadcast.error), Unlinking);
        ContinuedUnknown(Action.Stop, Look(), result, events, done);
        return;
      }
      ghost var steps;
      result, steps := Leave(Evidence(broadcast.value), events);
      World.Assoc(old(log.events), events, steps);
      SupportedExtends(Gena.StopBroadcast, observer.confirmation, Evidence(broadcast.value), events, steps, replies,
                       codes);
      events := events + steps;
    }

    /** The third STOP write, after the given first two. */
    method Leave(evidence: Backend.Evidence, ghost before: seq<Event>)
      returns (result: ActionResult, ghost steps: seq<Event>)
      requires Wired() && aura.Valid() && aura.bearer.Some? && unresolved.None? && observer.Released()
      requires aura.unresolved.None?
      requires Shows(before, [Write(BroadcastStop)]) && Tidy(before, true)
      modifies this, log
      ensures Valid() && Continued(Action.Stop, Look(), result, before + steps) && Subscribed !in steps
      ensures log.events == old(log.events) + steps
      ensures result.Accepted? ==> result.receipt.evidence == evidence
    {
      var exited;
      exited, steps := JblPlayTogether(Exit);
      if !exited.JblAccepted? {
        result := LatchUnknown(JblExitOutcomeUnknown, Unlinking);
      } else {
        lifecycle := Ready;
        result := Accepted(Receipt(NativePair, Ready, evidence, false));
      }
      ThirdWrite(Action.Stop, Look(), result, before, steps, !exited.JblNotSent?);
    }

    method Shutdown() returns (result: ActionResult, ghost events: seq<Event>)
      requires Valid()
      modifies this, aura, observer.mutation, observer.business, log
      ensures Valid() && Step(old(Look()), Action.Shutdown, Look(), result, events)
      ensures log.events == old(log.events) + events
    {
      ghost var pre := old(Look());
      events := [];
      if unresolved.Some? { return OutcomeUnknown(unresolved.value), events; }
      if lifecycle != Ready && lifecycle != Offline {
        result, events := Stop();
        StoppedIsShutdown(pre, Look(), result, events);
        if !result.Accepted? { return; }
      } else {
        NothingToStop(pre);
      }
      ghost var end;
      result, end := Release(pre, events);
      World.Assoc(old(log.events), events, end);
      events := events + end;
    }

    /** The teardown of a shutdown whose STOP, if any, was accepted. */
    method Release(ghost pre: View, ghost before: seq<Event>) returns (result: ActionResult, ghost end: seq<Event>)
      requires Valid() && unresolved.None? && pre.unresolved.None? && Stopped(pre, Look(), before)
      modifies this, aura, log
      ensures Valid() && log.events == old(log.events) + end
      ensures Step(pre, Action.Shutdown, Look(), result, before + end)
    {
      lifecycle := ShuttingDown;
      ghost var between := Look();
      var down := aura.Shutdown();
      end := [if down then World.Teardown else Fault];
      if !down {
        result := LatchUnknown(Unavailable, ShuttingDown);
      } else {
        lifecycle := Offline;
        result := Accepted(Receipt(NativePair, ShuttingDown, LifecycleAcknowledgement, false));
      }
      ReleaseEnds(pre, between, Look(), result, before, down);
    }

    /** The only action allowed to cross the latch. */
    method RecoverStop() returns (result: ActionResult, ghost events: seq<Event>)
      requires Valid()
      modifies this, aura, observer.mutation, observer.business, log
      ensures Valid() && Step(old(Look()), Action.RecoverStop, Look(), result, events)
      ensures log.events == old(log.events) + events
    {
      lifecycle := Recovering;
      var down := aura.Shutdown();
      if !down {
        result := LatchUnknown(Unavailable, Recovering);
        events := [Fault];
        RecoveryBlocked(old(Look()), Look(), result);
        return;
      }
      unresolved, lifecycle := None, Degraded;
      ghost var pre, steps := Look(), [];
      result, steps := Stop();
      RecoverySteps(old(Look()), pre, Look(), result, steps);
      World.Assoc(old(log.events), [World.Teardown], steps);
      events := [World.Teardown] + steps;
    }

    /** Exit path: releases the transport and keeps the latch. */
    method TeardownTransport() returns (ok: bool)
      requires Valid()
      modifies aura, log
      ensures Valid() && lifecycle == old(lifecycle) && unresolved == old(unresolved)
      ensures if ok then aura.bearer.None? else aura.bearer == old(aura.bearer)
      ensures log.events == old(log.events) + [if ok then World.Teardown else Fault]
    {
      ok := aura.Shutdown();
    }
  }

  const CONFIRMED_SETUP: seq<Event> := [World.Teardown, ColdConnect, Subscribed, World.Arm]

  lemma AcquireFailed(events: seq<Event>, bearer: Option<Acquisition.Bearer>, before: Option<Acquisition.Bearer>)
    requires || (events == [Fault] && bearer == before)
             || (events == [World.Teardown] + [Fault] && bearer.None?)
    ensures OfBackend(events) && Tidy(events, false) && !events[0].Probe?
    ensures Devices(events) <= SETUP && SlotFits(Devices(events), bearer)
    ensures Devices(events) == [] ==> bearer == before
  {
    SetupPrefixes();
    if events == [Fault] { OneEvent(Fault); } else { TeardownShows(Fault); }
  }

  lemma OneEvent(e: Event)
    requires e == Fault || e == World.Teardown || e == ColdConnect || e == World.Arm || e == Subscribed
    ensures Shows([e], if IsDevice(e) then [e] else []) && Tidy([e], e != Fault)
  {
    var events := [e];
    TidyWithoutWrites(events);
    assert events[0] == e;
    if IsDevice(e) { DevicesAreAll(events); } else { SilentShows(events); }
  }

  lemma TeardownShows(e: Event)
    requires e == Fault || e == ColdConnect
    ensures Shows([World.Teardown] + [e], [World.Teardown] + (if e == Fault then [] else [ColdConnect]))
    ensures Tidy([World.Teardown] + [e], e != Fault)
  {
    OneEvent(World.Teardown);
    OneEvent(e);
    JoinPhases([World.Teardown], [World.Teardown], [e], if e == Fault then [] else [ColdConnect], e != Fault);
  }

  lemma SetupPrefixes()
    ensures [] <= SETUP && [World.Teardown] <= SETUP && [World.Teardown] + [ColdConnect] <= SETUP
    ensures [World.Teardown] + [ColdConnect] + [World.Arm] == SETUP
    ensures [World.Teardown] + [ColdConnect] + [Subscribed] + [World.Arm] == CONFIRMED_SETUP
    ensures [World.Teardown] + [ColdConnect] + [] == [World.Teardown] + [ColdConnect]
    ensures [World.Teardown] + [ColdConnect] != [World.Teardown] + [Fault]
  {
    assert ([World.Teardown] + [ColdConnect])[1] == ColdConnect && ([World.Teardown] + [Fault])[1] == Fault;
  }

  lemma PreparedShows(steps: seq<Event>, gena: bool, ok: bool)
    requires Shows(steps, if ok then [World.Arm] else []) && Tidy(steps, ok)
    requires ok ==> steps == if gena then [Subscribed] + [World.Arm] else [World.Arm]
    ensures var events := [World.Teardown] + [ColdConnect] + steps;
            && OfBackend(events) && Tidy(events, ok) && events[0] == World.Teardown
            && Devices(events) == (if ok then SETUP else [World.Teardown] + [ColdConnect])
            && (ok ==> events == if gena then CONFIRMED_SETUP else SETUP)
  {
    TeardownShows(ColdConnect);
    SetupPrefixes();
    JoinPhases([World.Teardown] + [ColdConnect], [World.Teardown] + [ColdConnect], steps, if ok then [World.Arm]
               else [], ok);
  }

  lemma ArmedShows(gena: bool)
    ensures var events := if gena then [Subscribed] + [World.Arm] else [World.Arm];
            Shows(events, [World.Arm]) && Tidy(events, true)
  {
    OneEvent(World.Arm);
    if gena {
      OneEvent(Subscribed);
      JoinPhases([Subscribed], [], [World.Arm], [World.Arm], true);
      assert [] + [World.Arm] == [World.Arm];
    }
  }

  function JblLog(role: Role, answer: JblWrite): seq<Event> {
    if answer.JblNotSent? then [Fault] else [Write(role)] + [if answer.JblAccepted? then Answered(role) else Fault]
  }

  lemma JblShows(role: Role, answer: JblWrite)
    requires role == Enter || role == Exit
    ensures Shows(JblLog(role, answer), if answer.JblNotSent? then [] else [Write(role)])
    ensures Tidy(JblLog(role, answer), answer.JblAccepted?) && Subscribed !in JblLog(role, answer)
    ensures !answer.JblAccepted? && !answer.JblNotSent? ==> !AllAnswered(JblLog(role, answer))
  {
    if answer.JblNotSent? {
      SilentShows([Fault]);
      TidyWithoutWrites([Fault]);
    } else {
      var rest := [if answer.JblAccepted? then Answered(role) else Fault];
      OneWriteShows(role, rest);
      assert [] + [Write(role)] + rest == [Write(role)] + rest;
      TidySingle([], role, rest, answer.JblAccepted?);
    }
  }

  lemma OneWriteShows(role: Role, rest: seq<Event>)
    requires Silent(rest)
    ensures Shows([Write(role)] + rest, [Write(role)])
  {
    SilentShows(rest);
    DevicesAreAll([Write(role)]);
    ShowsBoth([Write(role)], [Write(role)], rest, []);
  }

  /** What is known of the log of one Aura command. */
  ghost predicate CommandLog(drain: seq<Event>, command_: seq<Event>, role: Role, wrote: bool) {
    && OfAura(role) && drain <= command_ && Aura.PacketsOnly(drain)
    && if wrote
       then && |command_| > |drain| && command_[|drain|] == Write(role)
            && Aura.PacketsOnly(command_[|drain| + 1..]) && QueueEmpty !in command_[|drain| + 1..]
            && forall m :: |drain| < m < |command_| - 1 ==> !command_[m].Received?
       else command_ == drain
  }

  lemma CommandTidy(live: bool, drain: seq<Event>, command_: seq<Event>, role: Role, wrote: bool, accepted: bool)
    requires CommandLog(drain, command_, role, wrote) && (accepted <==> wrote && Aura.Acknowledged(drain, command_))
    ensures var events := [Probe(live)] + (command_ + Faults(accepted));
            Tidy(events, accepted) && (wrote && !accepted ==> !AllAnswered(events))
  {
    var before := [Probe(live)] + drain;
    if wrote {
      WrittenTidy(before, drain, command_, role, accepted);
      CommandSplits(live, drain, command_, Faults(accepted));
    } else {
      var events := [Probe(live)] + (command_ + Faults(accepted));
      TidyWithoutWrites(events);
      assert events[|events| - 1] == Fault;
    }
  }

  lemma CommandSplits(live: bool, drain: seq<Event>, command_: seq<Event>, end: seq<Event>)
    requires drain <= command_ && |command_| > |drain| && command_[|drain|].Write?
    ensures [Probe(live)] + (command_ + end)
            == [Probe(live)] + drain + [Write(command_[|drain|].role)] + (command_[|drain| + 1..] + end)
  {
    assert command_ == drain + [command_[|drain|]] + command_[|drain| + 1..];
  }

  /** An Aura command never touches the subscription. */
  lemma CommandKeepsSubscription(live: bool, drain: seq<Event>, command_: seq<Event>, role: Role, wrote: bool, ok: bool)
    requires CommandLog(drain, command_, role, wrote)
    ensures var events := [Probe(live)] + (command_ + Faults(ok));
            forall m :: 0 <= m < |events| ==> !events[m].Unsubscribed? && !events[m].Subscribed?
  {
    forall m | 0 <= m < |command_| ensures !command_[m].Unsubscribed? && !command_[m].Subscribed? {
      if m > |drain| { assert command_[m] == command_[|drain| + 1..][m - |drain| - 1]; }
    }
  }

  lemma WrittenTidy(before: seq<Event>, drain: seq<Event>, command_: seq<Event>, role: Role, accepted: bool)
    requires OfAura(role) && Silent(before) && Fault !in before && |drain| < |command_|
    requires Aura.PacketsOnly(command_[|drain| + 1..]) && QueueEmpty !in command_[|drain| + 1..]
    requires forall m :: |drain| < m < |command_| - 1 ==> !command_[m].Received?
    requires accepted <==> Aura.Acknowledged(drain, command_)
    ensures var events := before + [Write(role)] + (command_[|drain| + 1..] + Faults(accepted));
            Tidy(events, accepted) && (!accepted ==> !AllAnswered(events))
  {
    var packets := command_[|drain| + 1..];
    var rest := packets + Faults(accepted);
    if accepted {
      AcknowledgementIsPositive(role, drain, command_);
      assert rest == packets;
    } else {
      assert rest[|packets|] == Fault;
      if Positive(role, rest) { PositiveIsAcknowledged(role, drain, command_); }
    }
    TidySingle(before, role, rest, accepted);
  }

  lemma PositiveIsAcknowledged(role: Role, drain: seq<Event>, command_: seq<Event>)
    requires OfAura(role) && |drain| < |command_| && Positive(role, command_[|drain| + 1..] + [Fault])
    requires Aura.PacketsOnly(command_[|drain| + 1..]) && QueueEmpty !in command_[|drain| + 1..]
    requires forall m :: |drain| < m < |command_| - 1 ==> !command_[m].Received?
    ensures Aura.Acknowledged(drain, command_)
  {
    var packets := command_[|drain| + 1..];
    forall m | 0 <= m < |packets| - 1 ensures !packets[m].Received? { assert packets[m] == command_[m + |drain| + 1]; }
    PositiveNeedsAcknowledgement(role, packets);
    assert packets[|packets| - 1] == command_[|command_| - 1];
    Aura.OneAcknowledgement(command_[|command_| - 1].packet);
  }

  lemma AcknowledgementIsPositive(role: Role, drain: seq<Event>, command_: seq<Event>)
    requires OfAura(role) && Aura.Acknowledged(drain, command_)
    requires Aura.PacketsOnly(command_[|drain| + 1..]) && QueueEmpty !in command_[|drain| + 1..]
    ensures Positive(role, command_[|drain| + 1..])
  {
    var packets := command_[|drain| + 1..];
    forall m | 0 <= m < |packets| - 1 ensures packets[m].Arrived? {
      assert packets[m] == command_[m + |drain| + 1];
      assert packets[m] in packets;
    }
    assert packets[|packets| - 1] == command_[|command_| - 1];
    Aura.OneAcknowledgement(command_[|command_| - 1].packet);
    PositiveArrivals(role, packets);
  }

  /** The log of the broadcaster command: at most its one write, answered when it went through. */
  lemma ExecuteTidy(action: Gena.Action, wrote: bool, events: seq<Event>, replies: seq<Packet>, ok: bool,
                    codes: seq<Option<int>>)
    requires Broadcast.CommandShape(action, wrote, events)
    requires (Fault in events <==> !ok) && (ok ==> wrote && Broadcast.Responded(replies))
    requires ok ==> || events == [Write(Broadcast.RoleOf(action))] + Broadcast.Replies(replies)
                    || events == Broadcast.ConfirmedLog(action, replies, codes)
    ensures Shows(events, if wrote then [Write(Broadcast.RoleOf(action))] else []) && Tidy(events, ok)
  {
    var role := Broadcast.RoleOf(action);
    if wrote {
      var rest := events[1..];
      assert events == [Write(role)] + rest;
      OneWriteShows(role, rest);
      if ok {
        var end := if events == [Write(role)] + Broadcast.Replies(replies) then []
                   else Gena.Codes(codes) + [Unsubscribed];
        assert rest == Broadcast.Replies(replies) + end;
        PositiveReplies(role, replies, end);
      }
      assert [] + [Write(role)] + rest == events;
      TidySingle([], role, rest, ok);
    } else {
      SilentShows(events);
      TidyWithoutWrites(events);
    }
  }

  /** A log that begins with the broadcaster command, with the evidence of its mode. */
  ghost predicate Supported(action: Gena.Action, mode: Broadcast.Confirmation, evidence: Evidence, events: seq<Event>,
                            replies: seq<Packet>, codes: seq<Option<int>>)
  {
    && Broadcast.Responded(replies)
    && if mode.AckMode?
       then evidence == BroadcastAcknowledgementOnly && Subscribed !in events
       else && evidence == BroadcastBusinessNotification && Gena.Confirms(action, codes)
            && Broadcast.ConfirmedLog(action, replies, codes) <= events
  }

  lemma SupportedExtends(action: Gena.Action, mode: Broadcast.Confirmation, evidence: Evidence, events: seq<Event>,
                         more: seq<Event>, replies: seq<Packet>, codes: seq<Option<int>>)
    requires Broadcast.Responded(replies) && Subscribed !in more
    requires if mode.AckMode?
             then evidence == BroadcastAcknowledgementOnly
                  && events == [Write(Broadcast.RoleOf(action))] + Broadcast.Replies(replies)
             else evidence == BroadcastBusinessNotification && Gena.Confirms(action, codes)
                  && events == Broadcast.ConfirmedLog(action, replies, codes)
    ensures Supported(action, mode, evidence, events + more, replies, codes)
  {
  }

  lemma StartEvident(mode: Broadcast.Confirmation, evidence: Evidence, setup: seq<Event>, roles: seq<Event>,
                     replies: seq<Packet>, codes: seq<Option<int>>)
    requires setup == if mode.GenaMode? then CONFIRMED_SETUP else SETUP
    requires |roles| >= 2 && roles[0] == Write(Enter) && roles[1] == Answered(Enter)
    requires Supported(Gena.StartBroadcast, mode, evidence, roles[2..], replies, codes)
    ensures Evident(Action.Start, evidence, setup + roles)
  {
    BecomesEvident(Action.Start, mode, evidence, setup, roles, 2, replies, codes);
  }

  lemma StopEvident(mode: Broadcast.Confirmation, evidence: Evidence, setup: seq<Event>, roles: seq<Event>, n: nat,
                    replies: seq<Packet>, codes: seq<Option<int>>)
    requires setup == if mode.GenaMode? then CONFIRMED_SETUP else SETUP
    requires n <= |roles| && forall m :: 0 <= m < n ==> !roles[m].Unsubscribed? && !roles[m].Subscribed?
    requires Supported(Gena.StopBroadcast, mode, evidence, roles[n..], replies, codes)
    ensures Evident(Action.Stop, evidence, setup + roles)
  {
    BecomesEvident(Action.Stop, mode, evidence, setup, roles, n, replies, codes);
  }

  lemma BecomesEvident(action: Action, mode: Broadcast.Confirmation, evidence: Evidence, setup: seq<Event>,
                       roles: seq<Event>, n: nat, replies: seq<Packet>, codes: seq<Option<int>>)
    requires action.Start? || action.Stop?
    requires setup == if mode.GenaMode? then CONFIRMED_SETUP else SETUP
    requires n <= |roles| && forall m :: 0 <= m < n ==> !roles[m].Unsubscribed? && !roles[m].Subscribed?
    requires Supported(BroadcastOf(action), mode, evidence, roles[n..], replies, codes)
    ensures Evident(action, evidence, setup + roles)
  {
    if mode.GenaMode? {
      assert CONFIRMED_SETUP[2] == Subscribed;
      ProofInside(BroadcastOf(action), roles, n, replies, codes);
    } else {
      assert roles == roles[..n] + roles[n..];
      forall e | e in roles[..n] ensures !e.Subscribed? { }
      assert Subscribed !in SETUP;
    }
  }

  lemma ProofInside(action: Gena.Action, roles: seq<Event>, n: nat, replies: seq<Packet>, codes: seq<Option<int>>)
    requires n <= |roles| && Broadcast.Responded(replies) && Gena.Confirms(action, codes)
    requires Broadcast.ConfirmedLog(action, replies, codes) <= roles[n..]
    requires forall m :: 0 <= m < n ==> !roles[m].Unsubscribed?
    ensures Broadcast.BusinessProof(action, CONFIRMED_SETUP + roles)
  {
    var confirmed := Broadcast.ConfirmedLog(action, replies, codes);
    var before, between, rest := [World.Teardown, ColdConnect], [World.Arm] + roles[..n], roles[n..][|confirmed|..];
    Broadcast.AssembleProof(action, before, between, replies, codes, rest);
    assert roles == roles[..n] + confirmed + rest;
    assert CONFIRMED_SETUP == before + [Subscribed] + [World.Arm];
    Regroup(before, [Subscribed], [World.Arm], roles[..n], confirmed, rest);
  }

  lemma Regroup(a: seq<Event>, b: seq<Event>, c: seq<Event>, d: seq<Event>, e: seq<Event>, f: seq<Event>)
    ensures a + b + c + (d + e + f) == a + b + (c + d) + e + f
  {
  }

  lemma RecoveryBlocked(pre: View, post: View, result: ActionResult)
    requires ViewOk(post) && post.bearer == pre.bearer && post.lifecycle == Degraded
    requires result.OutcomeUnknown? && result.Backend() == NativePair && post.unresolved == Some(result.failure)
    ensures Step(pre, Action.RecoverStop, post, result, [Fault])
  {
    SilentShows([Fault]);
    TidyWithoutWrites([Fault]);
  }

  lemma RecoverySteps(pre: View, between: View, post: View, result: ActionResult, steps: seq<Event>)
    requires between == View(Degraded, None, None) && Step(between, Action.Stop, post, result, steps)
    requires result.Accepted? ==> !result.receipt.idempotent
    ensures Step(pre, Action.RecoverStop, post, result, [World.Teardown] + steps)
  {
    TeardownThenStop(pre.lifecycle, post, result, steps);
    if Devices(steps) == [] { assert [World.Teardown] + Devices(steps) == [World.Teardown]; }
  }

  lemma TeardownThenStop(lifecycle: Lifecycle, post: View, result: ActionResult, steps: seq<Event>)
    requires Ran(Degraded, Action.Stop, post, result, steps) && (Devices(steps) == [] ==> post.bearer.None?)
    ensures Ran(lifecycle, Action.RecoverStop, post, result, [World.Teardown] + steps)
    ensures Devices([World.Teardown] + steps) == [World.Teardown] + Devices(steps)
  {
    var first := [World.Teardown];
    DevicesAreAll(first);
    TidyWithoutWrites(first);
    JoinPhases(first, first, steps, Devices(steps), result.Accepted?);
    DevicesKeepWrites(steps);
    if result.Accepted? { StillEvident(result.receipt.evidence, steps); }
    StopRanRecovers(lifecycle, post, result, steps, first + steps);
  }

  lemma StopRanRecovers(lifecycle: Lifecycle, post: View, result: ActionResult, steps: seq<Event>, events: seq<Event>)
    requires Ran(Degraded, Action.Stop, post, result, steps) && (Devices(steps) == [] ==> post.bearer.None?)
    requires Shows(events, [World.Teardown] + Devices(steps)) && Tidy(events, result.Accepted?)
    requires (AllAnswered(events) ==> AllAnswered(steps)) && (HasWrite(events) <==> HasWrite(steps))
    requires result.Accepted? ==> Evident(Action.RecoverStop, result.receipt.evidence, events)
    ensures Ran(lifecycle, Action.RecoverStop, post, result, events)
  {
    TeardownScript(Devices(steps));
  }

  lemma StillEvident(evidence: Evidence, steps: seq<Event>)
    requires Evident(Action.Stop, evidence, steps)
    ensures Evident(Action.RecoverStop, evidence, [World.Teardown] + steps)
  {
    if Subscribed in steps { Broadcast.ProofAfter(Gena.StopBroadcast, [World.Teardown], steps); }
  }

  lemma TeardownScript(devices: seq<Event>)
    requires devices <= STOP_SCRIPT
    ensures [World.Teardown] + devices <= [World.Teardown] + STOP_SCRIPT
    ensures [World.Teardown] + devices == [World.Teardown] + STOP_SCRIPT <==> devices == STOP_SCRIPT
    ensures devices != [] ==> ([World.Teardown] + devices)[|devices|] == devices[|devices| - 1]
  {
    assert ([World.Teardown] + devices)[1..] == devices && ([World.Teardown] + STOP_SCRIPT)[1..] == STOP_SCRIPT;
  }

  /** Before the teardown of a shutdown: the whole STOP ran, or none was needed. */
  ghost predicate Stopped(pre: View, between: View, events: seq<Event>) {
    && OfBackend(events) && Tidy(events, true)
    && Devices(events) + [World.Teardown] == Script(Action.Shutdown, pre.lifecycle)
    && (Devices(events) == [] ==> between.bearer == pre.bearer) && SlotFits(Devices(events), between.bearer)
    && (HasWrite(events) <==> pre.lifecycle != Ready && pre.lifecycle != Offline)
  }

  lemma NothingToStop(pre: View)
    requires pre.lifecycle == Ready || pre.lifecycle == Offline
    ensures Stopped(pre, pre, [])
  {
  }

  lemma StoppedIsShutdown(pre: View, post: View, result: ActionResult, events: seq<Event>)
    requires pre.unresolved.None? && pre.lifecycle != Ready && pre.lifecycle != Offline
    requires Step(pre, Action.Stop, post, result, events) && (result.Accepted? ==> !result.receipt.idempotent)
    ensures !result.Accepted? ==> Step(pre, Action.Shutdown, post, result, events)
    ensures result.Accepted? ==> Stopped(pre, post, events)
  {
    if result.Accepted? {
      DevicesKeepWrites(events);
      assert Devices(events)[3].Write?;
    }
  }

  lemma ReleaseEnds(pre: View, between: View, post: View, result: ActionResult, before: seq<Event>, down: bool)
    requires pre.unresolved.None? && Stopped(pre, between, before) && ViewOk(post)
    requires post.bearer == if down then None else between.bearer
    requires if down then post.unresolved.None? && post.lifecycle == Offline
                          && result == Accepted(Receipt(NativePair, ShuttingDown, LifecycleAcknowledgement, false))
             else result.OutcomeUnknown? && result.Backend() == NativePair && post.lifecycle == Degraded
                  && post.unresolved == Some(result.failure)
    ensures Step(pre, Action.Shutdown, post, result, before + [if down then World.Teardown else Fault])
  {
    var end := [if down then World.Teardown else Fault];
    if down { DevicesAreAll(end); } else { SilentShows(end); }
    ShowsBoth(before, Devices(before), end, if down then end else []);
    TidyWithoutWrites(end);
    TidyThen(before, end, down);
    WritesConcat(before, end);
    assert Devices(before) + [] == Devices(before);
  }
}
