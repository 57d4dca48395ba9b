/** The web actor: compare-and-mutate on the controller revision, entity tags, and the exit path. */
module Service {
  import opened Wrappers
  import Ascii
  import Controller
  import Backend
  import NativeCore
  import World

  type Action = NativeCore.Action
  type Disk = World.Disk

  const U64_MAX: nat := Controller.U64_MAX

  // ---------------------------------------------------------------- entity tags

  function EntityTag(revision: nat): string { "\"" + Ascii.Decimal(revision) + "\"" }

  function ParseStrongRevision(value: string): Option<nat> {
    if |value| < 2 || value[0] != '"' || value[|value| - 1] != '"' then None
    else
      var digits := value[1..|value| - 1];
      if !Ascii.CanonicalDigits(digits) || Ascii.DecimalValue(digits) > U64_MAX then None
      else Some(Ascii.DecimalValue(digits))
  }

  /** The precondition names a revision exactly when it is that revision's entity tag. */
  lemma EntityTagIsExact(value: string, revision: nat)
    ensures ParseStrongRevision(value) == Some(revision) <==> value == EntityTag(revision) && revision <= U64_MAX
  {
    var digits := Ascii.Decimal(revision);
    Ascii.DecimalRoundTrip(revision);
    if value == EntityTag(revision) {
      assert value[1..|value| - 1] == digits;
    }
    if ParseStrongRevision(value).Some? {
      Ascii.CanonicalRoundTrip(value[1..|value| - 1]);
      assert value == "\"" + value[1..|value| - 1] + "\"";
    }
  }

  // ---------------------------------------------------------------- calls

  /** Calls of all clients reach the one actor in some order. */
  datatype Call =
    | ReadStatus
    | MutateIf(expected: nat, action: Action, reply: Option<Controller.Report>, trace: Controller.Trace)

  datatype State = State(view: Controller.View, disk: Disk)

  /** A mutation whose expected revision is stale changes nothing; otherwise it is one controller action. */
  ghost predicate Answered(pre: State, call: Call, post: State) {
    match call
    case ReadStatus => Controller.Observed(pre.view, post.view) && post.disk == pre.disk
    case MutateIf(expected, action, reply, trace) =>
      if pre.view.revision != expected
      then reply.None? && post == pre && trace == Controller.NOTHING
      else reply.Some? && Controller.Mutated(pre.view, pre.disk, action, post.view, post.disk, reply.value, trace)
  }

  predicate Executed(call: Call) { call.MutateIf? && call.reply.Some? }

  ghost predicate History(states: seq<State>, calls: seq<Call>) {
    && |states| == |calls| + 1
    && Controller.Coupled(states[0].view)
    && forall i :: 0 <= i < |calls| ==> Answered(states[i], calls[i], states[i + 1])
  }

  lemma CallKeeps(pre: State, call: Call, post: State)
    requires Controller.Coupled(pre.view) && Answered(pre, call, post)
    ensures Controller.Coupled(post.view) && pre.view.revision <= post.view.revision
    ensures Executed(call) ==> call.expected == pre.view.revision && call.reply.value.revision == post.view.revision
    ensures Executed(call) ==> (pre.view.revision < post.view.revision <==> pre.view.revision < U64_MAX)
  {
  }

  /** Revisions never go back, in any interleaving. */
  lemma {:induction false} RevisionNeverDecreases(states: seq<State>, calls: seq<Call>, i: nat, j: nat)
    requires History(states, calls) && i <= j <= |calls|
    ensures Controller.Coupled(states[i].view) && Controller.Coupled(states[j].view)
    ensures states[i].view.revision <= states[j].view.revision
    decreases j
  {
    if i < j {
      RevisionNeverDecreases(states, calls, i, j - 1);
      CallKeeps(states[j - 1], calls[j - 1], states[j]);
    } else if j > 0 {
      RevisionNeverDecreases(states, calls, j - 1, j - 1);
      CallKeeps(states[j - 1], calls[j - 1], states[j]);
    }
  }

  /** Each revision value below saturation authorizes at most one mutation, whoever sends it. */
  lemma AuthorizesAtMostOnce(states: seq<State>, calls: seq<Call>, i: nat, j: nat)
    requires History(states, calls) && i < j < |calls| && Executed(calls[i]) && Executed(calls[j])
    ensures calls[i].expected <= calls[j].expected
    ensures calls[i].expected == calls[j].expected ==> calls[i].expected == U64_MAX
  {
    RevisionNeverDecreases(states, calls, i, i);
    CallKeeps(states[i], calls[i], states[i + 1]);
    RevisionNeverDecreases(states, calls, i + 1, j);
    CallKeeps(states[j], calls[j], states[j + 1]);
  }

  /** A START that finds no pair configuration, or an older uncertainty, is refused and counted. */
  function Refused(s: State): State {
    var view := s.view;
    var revision := Controller.Bump(view.revision);
    var failure := if view.unresolved then Controller.UnresolvedPriorAction
                   else Controller.PairConfigurationUnavailable;
    var report := Controller.Report(NativeCore.Start, Controller.RejectedBeforeSend, view.managed, None, Some(failure),
                                    revision);
    s.(view := view.(failures := if view.unresolved then view.failures else Controller.CountFailure(view.failures),
                     revision := revision, last := Some(report)))
  }

  /** Its trace: nothing at all, or one membership read that got no answer. */
  function RefusedTrace(s: State): Controller.Trace {
    if s.view.unresolved then Controller.NOTHING
    else Controller.NOTHING.(preflight := [World.MembershipRead(None, [], [])])
  }

  lemma RefusedIsAnswer(s: State)
    requires Controller.Coupled(s.view) && s.disk.Dir?
    ensures Answered(s, MutateIf(s.view.revision, NativeCore.Start, Refused(s).view.last, RefusedTrace(s)), Refused(s))
  {
  }

  /** The bound is sharp: once saturated, the same value authorizes again. */
  lemma SaturationAuthorizesAgain(s: State) returns (states: seq<State>, calls: seq<Call>)
    requires Controller.Coupled(s.view) && s.disk.Dir? && s.view.revision == U64_MAX
    ensures History(states, calls) && |calls| == 2 && states[0] == s
    ensures Executed(calls[0]) && Executed(calls[1]) && calls[0].expected == calls[1].expected
  {
    RefusedIsAnswer(s);
    var s' := Refused(s);
    CallKeeps(s, MutateIf(s.view.revision, NativeCore.Start, s'.view.last, RefusedTrace(s)), s');
    RefusedIsAnswer(s');
    states := [s, s', Refused(s')];
    calls := [MutateIf(U64_MAX, NativeCore.Start, s'.view.last, RefusedTrace(s)),
              MutateIf(U64_MAX, NativeCore.Start, Refused(s').view.last, RefusedTrace(s'))];
  }

  /** What the local client checks of a reply, given the status revision it sent. */
  predicate ClientAccepts(sent: nat, action: Action, report: Controller.Report, etag: string) {
    report.action == action && report.revision > sent && etag == EntityTag(report.revision)
  }

  /** The client accepts the reply to every executed mutation exactly below saturation. */
  lemma ClientAcceptsExactlyBelowSaturation(states: seq<State>, calls: seq<Call>, i: nat)
    requires History(states, calls) && i < |calls| && Executed(calls[i])
    ensures var c := calls[i];
            ClientAccepts(c.expected, c.action, c.reply.value, EntityTag(c.reply.value.revision)) <==>
                c.expected < U64_MAX
  {
    RevisionNeverDecreases(states, calls, i, i);
    CallKeeps(states[i], calls[i], states[i + 1]);
  }

  /** Reading a status and then sending its entity tag is a compare-and-swap: the mutation
      runs exactly when nothing changed the revision in between. */
  lemma ReadThenMutate(states: seq<State>, calls: seq<Call>, i: nat, j: nat)
    requires History(states, calls) && i < j < |calls| && calls[i].ReadStatus? && calls[j].MutateIf?
    requires ParseStrongRevision(EntityTag(states[i + 1].view.revision)) == Some(calls[j].expected)
    ensures Executed(calls[j]) <==> states[j].view.revision == states[i + 1].view.revision
    ensures Executed(calls[j]) && calls[j].expected < U64_MAX ==> forall k :: i < k < j ==> !Executed(calls[k])
  {
    EntityTagIsExact(EntityTag(states[i + 1].view.revision), calls[j].expected);
    Ascii.DecimalRoundTrip(states[i + 1].view.revision);
    Ascii.DecimalRoundTrip(calls[j].expected);
    var tag := EntityTag(states[i + 1].view.revision);
    assert tag[1..|tag| - 1] == Ascii.Decimal(states[i + 1].view.revision);
    assert calls[j].expected == states[i + 1].view.revision;
    assert Answered(states[j], calls[j], states[j + 1]);
    if Executed(calls[j]) && calls[j].expected < U64_MAX {
      forall k | i < k < j
        ensures !Executed(calls[k])
      {
        RevisionNeverDecreases(states, calls, i + 1, k);
        CallKeeps(states[k], calls[k], states[k + 1]);
        RevisionNeverDecreases(states, calls, k + 1, j);
      }
    }
  }

  // ---------------------------------------------------------------- the actor

  datatype WebMutation = Start | Stop | RecoverStop

  function AsAction(mutation: WebMutation): (action: Action)
    ensures action.Start? <==> mutation.Start?
    ensures action.Stop? <==> mutation.Stop?
    ensures action.RecoverStop? <==> mutation.RecoverStop?
  {
    match mutation
    case Start => NativeCore.Start
    case Stop => NativeCore.Stop
    case RecoverStop => NativeCore.RecoverStop
  }

  /** The role writes a request may begin. */
  predicate Orders(mutation: WebMutation, role: World.Role) {
    if mutation.Start? then role == World.Enter || role == World.BroadcastStart || role == World.AuraOn
    else role == World.AuraOff || role == World.BroadcastStop || role == World.Exit
  }

  ghost predicate WritesOnly(mutation: WebMutation, events: seq<World.Event>) {
    forall i :: 0 <= i < |events| && events[i].Write? ==> Orders(mutation, events[i].role)
  }

  /** A controller action begins the writes of its own script and no other. */
  lemma OrderedWrites(mutation: WebMutation, action: Action, pre: Controller.View, disk: Disk, post: Controller.View,
                      after: Disk, report: Controller.Report, t: Controller.Trace)
    requires action == (match mutation case Start => NativeCore.Start case Stop => NativeCore.Stop
                        case RecoverStop => NativeCore.RecoverStop)
    requires Controller.Mutated(pre, disk, action, post, after, report, t)
    ensures WritesOnly(mutation, Controller.Flat(t))
  {
    RunsOwnScript(pre, disk, action, post, after, report, t);
    ScriptIsOrdered(mutation, action, pre.core.lifecycle);
    DevicesOrdered(mutation, t.script, NativeCore.Script(action, pre.core.lifecycle));
    FlatWrites(t);
  }

  lemma RunsOwnScript(pre: Controller.View, disk: Disk, action: Action, post: Controller.View, after: Disk,
                      report: Controller.Report, t: Controller.Trace)
    requires Controller.Mutated(pre, disk, action, post, after, report, t)
    ensures Controller.OfReads(t.preflight) && Controller.OfReads(t.check)
    ensures World.Devices(t.script) <= NativeCore.Script(action, pre.core.lifecycle)
  {
  }

  lemma ScriptIsOrdered(mutation: WebMutation, action: Action, lifecycle: Backend.Lifecycle)
    requires action == (match mutation case Start => NativeCore.Start case Stop => NativeCore.Stop
                        case RecoverStop => NativeCore.RecoverStop)
    ensures WritesOnly(mutation, NativeCore.Script(action, lifecycle))
  {
  }

  lemma DevicesOrdered(mutation: WebMutation, events: seq<World.Event>, script: seq<World.Event>)
    requires World.Devices(events) <= script && WritesOnly(mutation, script)
    ensures WritesOnly(mutation, events)
  {
    forall i | 0 <= i < |events| && events[i].Write?
      ensures Orders(mutation, events[i].role)
    {
      DeviceShows(events, i);
      var k :| 0 <= k < |World.Devices(events)| && World.Devices(events)[k] == events[i];
      assert script[k] == events[i];
    }
  }

  /** A device event of a log is in its projection. */
  lemma {:induction false} DeviceShows(events: seq<World.Event>, i: nat)
    requires i < |events| && World.IsDevice(events[i])
    ensures events[i] in World.Devices(events)
  {
    var front := events[..|events| - 1];
    if i < |front| {
      assert front[i] == events[i];
      DeviceShows(front, i);
    }
  }

  /** All writes of an action are in its backend script. */
  lemma FlatWrites(t: Controller.Trace)
    requires Controller.OfReads(t.preflight) && Controller.OfReads(t.check)
    ensures forall i :: 0 <= i < |Controller.Flat(t)| && Controller.Flat(t)[i].Write? ==>
              Controller.Flat(t)[i] in t.script
  {
  }

  datatype ExitError = ShutdownRejected | ShutdownOutcomeUnknown | ShutdownPostconditionFailed | TransportTeardownFailed

  function ShutdownError(outcome: Controller.Outcome): Option<ExitError> {
    match outcome
    case Accepted => None
    case AcceptedUnconfirmed => None
    case Idempotent => None
    case RejectedBeforeSend => Some(ShutdownRejected)
    case OutcomeUnknown => Some(ShutdownOutcomeUnknown)
    case PostconditionFailed => Some(ShutdownPostconditionFailed)
  }

  /** The exit's own teardown: one attempt unless an earlier one succeeded. */
  function Ending(already: bool, ok: bool): seq<World.Event> {
    if already then [] else [if ok then World.Teardown else World.Fault]
  }

  class WebActor {
    const controller: Controller.PairController
    var teardownDone: bool

    constructor (controller: Controller.PairController)
      ensures this.controller == controller && !teardownDone
    {
      this.controller := controller;
      teardownDone := false;
    }

    ghost function Look(): State
      reads controller, controller.journal, controller.core, controller.core.aura
    {
      State(controller.Look(), controller.journal.disk)
    }

    /** Compare and mutate as one actor operation. */
    method MutateIfRevision(expected: nat, mutation: WebMutation)
      returns (reply: Option<Controller.Report>, ghost trace: Controller.Trace)
      requires controller.Valid()
      modifies controller, controller.journal, controller.core, controller.core.aura,
               controller.core.observer.mutation, controller.core.observer.business, controller.journal.log
      ensures controller.Valid()
      ensures Answered(old(Look()), MutateIf(expected, AsAction(mutation), reply, trace), Look())
      ensures reply.Some? ==>
                && (mutation.Start? <==> reply.value.action == NativeCore.Start)
                && (mutation.Stop? <==> reply.value.action == NativeCore.Stop)
                && (mutation.RecoverStop? <==> reply.value.action == NativeCore.RecoverStop)
      ensures WritesOnly(mutation, Controller.Flat(trace))
      ensures controller.journal.log.events == old(controller.journal.log.events) + Controller.Flat(trace)
    {
      if controller.revision != expected {
        reply, trace := None, Controller.NOTHING;
        assert Controller.Flat(trace) == [];
        return;
      }
      ghost var pre := Look();
      var report;
      report, trace := controller.Mutate(AsAction(mutation));
      OrderedWrites(mutation, AsAction(mutation), pre.view, pre.disk, Look().view, Look().disk, report, trace);
      reply := Some(report);
    }

    method TeardownTransportOnce() returns (ok: bool)
      requires controller.Valid()
      modifies this`teardownDone, controller.core.aura, controller.journal.log
      ensures controller.Valid() && Look().disk == old(Look()).disk
      ensures Look().view == old(Look().view).(core := old(Look().view.core).(bearer := controller.core.aura.bearer))
      ensures ok == teardownDone && (old(teardownDone) ==> teardownDone)
      ensures ok && !old(teardownDone) ==> controller.core.aura.bearer.None?
      ensures controller.journal.log.events ==
                old(controller.journal.log.events) + Ending(old(teardownDone), ok)
    {
      if teardownDone { return true; }
      ok := controller.TeardownTransportForExit();
      if ok { teardownDone := true; }
    }

    /** Graceful exit: one shutdown, then the teardown whatever the shutdown said.  The
        shutdown's own error has priority. */
    method ShutdownForExit()
      returns (error: Option<ExitError>, ghost report: Controller.Report, ghost trace: Controller.Trace,
               ghost between: State)
      requires controller.Valid()
      modifies this`teardownDone, controller, controller.journal, controller.core, controller.core.aura,
               controller.core.observer.mutation, controller.core.observer.business, controller.journal.log
      ensures controller.Valid()
      ensures Controller.Mutated(old(Look().view), old(Look().disk), NativeCore.Shutdown, between.view, between.disk,
                                 report, trace)
      ensures Look().disk == between.disk && Look().view == between.view.(core := Look().view.core)
      ensures teardownDone && !old(teardownDone) ==> controller.core.aura.bearer.None?
      ensures controller.journal.log.events ==
                old(controller.journal.log.events) + Controller.Flat(trace) + Ending(old(teardownDone), teardownDone)
      ensures error.None? <==>
                report.outcome in {Controller.Accepted, Controller.AcceptedUnconfirmed, Controller.Idempotent}
                && teardownDone
      ensures error == Some(ShutdownRejected) <==> report.outcome == Controller.RejectedBeforeSend
      ensures error == Some(ShutdownOutcomeUnknown) <==> report.outcome == Controller.OutcomeUnknown
      ensures error == Some(ShutdownPostconditionFailed) <==> report.outcome == Controller.PostconditionFailed
      ensures error.None? ==> !controller.unresolvedAction && !between.view.journal.Pending?
    {
      var outcome;
      outcome, trace := controller.Mutate(NativeCore.Shutdown);
      report, between := outcome, Look();
      var down := TeardownTransportOnce();
      error := ShutdownError(outcome.outcome);
      if error.None? && !down { error := Some(TransportTeardownFailed); }
    }
  }
}
