/** The single-owner controller: journal first, then one backend transaction, then the membership check. */
module Controller {
  import opened Wrappers
  import World
  import Journal
  import Backend
  import NativeCore
  import Pairing

  type Action = NativeCore.Action
  type Event = World.Event
  type Disk = World.Disk

  datatype Managed = Unknown | Offline | Ready | Linking | Linked | Unlinking | Recovering | Degraded | ShuttingDown

  datatype Outcome =
    | Accepted | AcceptedUnconfirmed | Idempotent | RejectedBeforeSend | OutcomeUnknown | PostconditionFailed

  function AcceptedAs(evidence: Backend.Evidence): Outcome {
    if evidence == Backend.BroadcastAcknowledgementOnly then AcceptedUnconfirmed else Accepted
  }

  /** Backend reasons are carried unprojected; the source flattens them to labels. */
  datatype Failure =
    | PairConfigurationUnavailable | ExpectedPairNotConfigured
    | BackendRejected(reason: Backend.BackendError) | BackendUnknown(reason: Backend.BackendError)
    | UnexpectedBackendLifecycle | MembershipPostconditionFailed
    | UnresolvedPriorAction | RecoveryNotAllowed | JournalUnavailable | JournalCommitFailed

  datatype Report = Report(action: Action, outcome: Outcome, managed: Managed, evidence: Option<Backend.Evidence>,
                           failure: Option<Failure>, revision: nat)

  const U64_MAX: nat := 0xffff_ffff_ffff_ffff
  const U8_MAX: nat := 255

  function Bump(revision: nat): nat { if revision < U64_MAX then revision + 1 else revision }

  /** Saturating, like the counter of one byte that it models. */
  function CountFailure(failures: nat): (r: nat)
    ensures failures <= r && (failures <= U8_MAX ==> r <= U8_MAX && (r == failures <==> failures == U8_MAX))
  {
    if failures < U8_MAX then failures + 1 else failures
  }

  function JournalAction(action: Action): (r: Journal.JournalAction)
    ensures Journal.Label(r) == if action.Start? then "start" else if action.Stop? then "stop"
                                else if action.Shutdown? then "shutdown" else "recover-stop"
  {
    match action
    case Start => Journal.Start
    case Stop => Journal.Stop
    case Shutdown => Journal.Shutdown
    case RecoverStop => Journal.RecoverStop
  }

  // ---------------------------------------------------------------- specification

  datatype View = View(managed: Managed, unresolved: bool, failures: nat, revision: nat, last: Option<Report>,
                       journal: Journal.JournalState, core: NativeCore.View)

  /** What holds between actions, whatever happened before. */
  ghost predicate Coupled(c: View) {
    && (c.unresolved <==> c.journal.Pending?)
    && (c.core.unresolved.Some? ==> c.unresolved)
    && (c.unresolved ==> c.managed == Unknown || c.managed == Degraded)
    && c.managed in {Unknown, Offline, Ready, Linked, Degraded}
    && (c.managed == Linked ==> c.core.lifecycle == Backend.Linked)
    && (c.managed == Ready ==> c.core.lifecycle == Backend.Ready)
    && (c.managed == Offline ==> c.core.lifecycle == Backend.Offline)
    && c.failures <= U8_MAX && c.revision <= U64_MAX
    && (c.last.Some? ==> c.last.value.revision <= c.revision)
    && NativeCore.ViewOk(c.core)
  }

  /** The parts of the log that one action appends, in order: the readings of the preflight, the
      disks of the pending publication, the backend's events and answer (or the fault that stopped
      the publication), the membership check, and the disks of the clearing, which is `stuck` when
      it was tried and failed. */
  datatype Trace = Trace(preflight: seq<Event>, marked: bool, mark: seq<Disk>, answer: Option<Backend.ActionResult>,
                         script: seq<Event>, check: seq<Event>, cleared: bool, clear: seq<Disk>, stuck: bool)

  const NOTHING: Trace := Trace([], false, [], None, [], [], false, [], false)

  /** The log of one action, and what of it follows the readings, the record and the backend. */
  function Flat(t: Trace): seq<Event> { t.preflight + Acts(t) }

  function Acts(t: Trace): seq<Event> { World.Disks(t.mark) + (t.script + Settling(t.check, t.clear, t.stuck)) }

  function Settling(check: seq<Event>, clear: seq<Disk>, stuck: bool): seq<Event> {
    check + (World.Disks(clear) + World.Faults(!stuck))
  }

  function MarkedDisk(disk: Disk, t: Trace): Disk { if t.mark == [] then disk else t.mark[|t.mark| - 1] }

  /** Only readings happened. */
  predicate Untouched(t: Trace) { t == NOTHING.(preflight := t.preflight) }

  /** The record could not be published. */
  predicate Unrecorded(t: Trace) { !t.marked && t.script == [World.Fault] }

  predicate OfReads(events: seq<Event>) {
    forall i :: 0 <= i < |events| ==> events[i].MembershipRead? || events[i].HealthRead? || events[i].Probe?
  }

  /** The check after the action read the membership as ready. */
  predicate Rechecked(check: seq<Event>) { |check| == 1 && World.ReadyRead(check[0]) }

  /** The journal side: the membership was read as ready before anything was recorded, nothing
      reaches the backend before a successful mark, and the clearing starts from the marked disk. */
  ghost predicate Phases(disk: Disk, action: Action, after: Disk, t: Trace) {
    && disk.Dir? && after.Dir? && MarkedDisk(disk, t).Dir?
    && OfReads(t.preflight) && World.OfBackend(t.script) && OfReads(t.check)
    && (t.marked || t.mark != [] ==> t.preflight != [] && World.ReadyRead(t.preflight[0]))
    && Journal.Marked(disk, JournalAction(action), MarkedDisk(disk, t), t.marked, t.mark)
    && Journal.Cleared(MarkedDisk(disk, t), after, t.cleared, t.clear)
    && (!t.marked ==> t.answer.None? && t.check == [] && !t.cleared && t.clear == [] && !t.stuck)
    && (!t.marked ==> Unrecorded(t) || (t.script == [] && t.mark == []))
    && (t.cleared ==> !t.stuck) && (!t.cleared && !t.stuck ==> t.clear == [])
  }

  predicate Successful(outcome: Outcome) { outcome == Accepted || outcome == AcceptedUnconfirmed }

  /** A health reading that confirms the settled state of an action. */
  predicate Confirms(action: Action, e: Event) {
    && e.HealthRead? && e.health.lifecycle == NativeCore.SettledLifecycle(action) && e.health.level == Backend.Healthy
    && !e.health.reportedError && e.health.transport != Backend.UnresolvedTransport
  }

  /** An action is adopted as done only in its own settled state: membership ready and health
      confirming it, or a shutdown of what is already offline. */
  ghost predicate Adopted(pre: View, action: Action, t: Trace) {
    && Untouched(t) && !pre.unresolved
    && pre.managed == SettledManaged(action) && pre.core.lifecycle == NativeCore.SettledLifecycle(action)
    && if action.Shutdown? then t.preflight == []
       else |t.preflight| >= 2 && World.ReadyRead(t.preflight[0]) && Confirms(action, t.preflight[|t.preflight| - 1])
  }

  predicate NotConfigured(report: Report) {
    report.failure == Some(ExpectedPairNotConfigured) || report.failure == Some(PairConfigurationUnavailable)
  }

  /** The outcome side: what each public outcome says about the trace and the latch. */
  ghost predicate Explained(pre: View, action: Action, post: View, report: Report, t: Trace) {
    && (pre.unresolved && !action.RecoverStop? ==>
          t == NOTHING && report.outcome == RejectedBeforeSend
          && post == pre.(revision := post.revision, last := post.last))
    && (report.outcome == RejectedBeforeSend ==> !World.HasWrite(t.script))
    && (report.outcome == RejectedBeforeSend && pre.unresolved ==> post.unresolved && !t.cleared && t.clear == [])
    && (report.outcome == Idempotent ==> Adopted(pre, action, t) && !post.unresolved)
    && (NotConfigured(report) ==>
          Untouched(t) && |t.preflight| == 1 && t.preflight[0].MembershipRead? && !World.ReadyRead(t.preflight[0]))
    && (report.outcome == OutcomeUnknown || report.outcome == PostconditionFailed ==>
          t.marked && !t.cleared && post.unresolved)
    && (Successful(report.outcome) ==> t.marked && Rechecked(t.check) && t.cleared && !post.unresolved)
    && (t.cleared ==>
          (Successful(report.outcome) && Rechecked(t.check)) || (!pre.unresolved && !World.HasWrite(t.script)))
    && (report.evidence.Some? <==> Successful(report.outcome))
    && (report.outcome == AcceptedUnconfirmed <==> report.evidence == Some(Backend.BroadcastAcknowledgementOnly))
  }

  predicate Answers(e: Event) {
    e.MembershipRead? && e.answer.Some? && Pairing.GroupParses(e.answer.value, e.jbl, e.aura)
  }

  /** Who gets through: without a ready membership nobody, in the own settled state only what the
      health reading does not confirm, otherwise everybody. */
  ghost predicate Admission(pre: View, action: Action, report: Report, t: Trace) {
    Barred(pre, action).None? && !(action.Shutdown? && pre.managed == Offline) ==>
      && t.preflight != [] && t.preflight[0].MembershipRead?
      && var settled := !action.RecoverStop? && pre.managed == SettledManaged(action);
         var last := t.preflight[|t.preflight| - 1];
         if !World.ReadyRead(t.preflight[0])
         then && Untouched(t) && |t.preflight| == 1 && report.outcome == RejectedBeforeSend
              && report.failure == Some(if Answers(t.preflight[0]) then ExpectedPairNotConfigured
                                        else PairConfigurationUnavailable)
         else if settled && Confirms(action, last) then Untouched(t) && report.outcome == Idempotent
         else (t.marked || Unrecorded(t)) && (settled ==> last.HealthRead?)
  }

  /** What becomes of a recorded action, as a function of the backend's answer, the membership check
      and whether a clearing that was tried went through. */
  ghost predicate Settles(hadUncertainty: bool, answer: Backend.ActionResult, report: Report, check: seq<Event>,
                          cleared: bool, stuck: bool)
  {
    match answer
    case OutcomeUnknown(failure) =>
      && check == [] && !cleared && !stuck
      && report.outcome == OutcomeUnknown && report.failure == Some(BackendUnknown(failure.reason))
    case RejectedBeforeSend(failure) =>
      && check == [] && (hadUncertainty ==> !cleared && !stuck) && (!hadUncertainty ==> cleared || stuck)
      && if stuck then report.outcome == OutcomeUnknown && report.failure == Some(JournalCommitFailed)
         else report.outcome == RejectedBeforeSend && report.failure == Some(BackendRejected(failure.reason))
    case Accepted(receipt) =>
      && |check| == 1 && check[0].MembershipRead?
      && if !World.ReadyRead(check[0])
         then && !cleared && !stuck
              && report.outcome == PostconditionFailed && report.failure == Some(MembershipPostconditionFailed)
         else && (cleared || stuck)
              && if stuck then report.outcome == OutcomeUnknown && report.failure == Some(JournalCommitFailed)
                 else report.failure.None? && report.evidence == Some(receipt.evidence) && Successful(report.outcome)
  }

  /** The backend side: a recorded action is one transaction of the native core, and its report is
      settled by the answer. */
  ghost predicate Backed(pre: View, action: Action, post: View, report: Report, t: Trace) {
    && (t.marked <==> t.answer.Some?)
    && (t.answer.Some? ==>
          && NativeCore.Outcome(pre.core.lifecycle, action, post.core, t.answer.value, t.script)
          && Settles(pre.unresolved, t.answer.value, report, t.check, t.cleared, t.stuck))
    && (Unrecorded(t) ==> report.outcome == RejectedBeforeSend && report.failure == Some(JournalUnavailable))
  }

  /** What the reduction of a backend answer promises. */
  ghost predicate Concluded(hadUncertainty: bool, action: Action, post: View, script: seq<Event>, report: Report,
                            check: seq<Event>, cleared: bool, clear: seq<Disk>)
  {
    && report.action == action && report.managed == post.managed && report.revision == post.revision
    && post.last == Some(report) && OfReads(check)
    && report.outcome != Idempotent && !NotConfigured(report)
    && (report.outcome == RejectedBeforeSend ==>
          !World.HasWrite(script) && (hadUncertainty ==> post.unresolved && !cleared && clear == []))
    && (report.outcome == OutcomeUnknown || report.outcome == PostconditionFailed ==> !cleared && post.unresolved)
    && (Successful(report.outcome) ==> Rechecked(check) && cleared && !post.unresolved)
    && (cleared ==> (Successful(report.outcome) && Rechecked(check)) || (!hadUncertainty && !World.HasWrite(script)))
    && (report.evidence.Some? <==> Successful(report.outcome))
    && (report.outcome == AcceptedUnconfirmed <==> report.evidence == Some(Backend.BroadcastAcknowledgementOnly))
  }

  /** A conservative exit concludes any action. */
  lemma UnknownConcludes(hadUncertainty: bool, action: Action, post: View, script: seq<Event>, report: Report,
                         check: seq<Event>, clear: seq<Disk>)
    requires report.outcome == OutcomeUnknown || report.outcome == PostconditionFailed
    requires report == Report(action, report.outcome, post.managed, None, report.failure, post.revision)
    requires post.last == Some(report) && post.unresolved && OfReads(check)
    requires !NotConfigured(report)
    ensures Concluded(hadUncertainty, action, post, script, report, check, false, clear)
  {
  }

  lemma RejectedConcludes(hadUncertainty: bool, action: Action, post: View, script: seq<Event>, report: Report,
                          cleared: bool, clear: seq<Disk>)
    requires report.outcome == RejectedBeforeSend && !World.HasWrite(script)
    requires report == Report(action, report.outcome, post.managed, None, report.failure, post.revision)
    requires post.last == Some(report) && (hadUncertainty ==> post.unresolved && !cleared && clear == [])
    requires !NotConfigured(report)
    ensures Concluded(hadUncertainty, action, post, script, report, [], cleared, clear)
  {
  }

  lemma AcceptedConcludes(hadUncertainty: bool, action: Action, post: View, script: seq<Event>, report: Report,
                          check: seq<Event>, clear: seq<Disk>)
    requires Successful(report.outcome) && report.evidence.Some? && Rechecked(check)
    requires report.outcome == AcceptedUnconfirmed <==> report.evidence == Some(Backend.BroadcastAcknowledgementOnly)
    requires report == Report(action, report.outcome, post.managed, report.evidence, None, post.revision)
    requires post.last == Some(report) && !post.unresolved && post.failures == 0
             && post.managed == SettledManaged(action)
    ensures Concluded(hadUncertainty, action, post, script, report, check, true, clear)
    ensures forall failures :: Tallied(failures, action, post, report)
  {
  }

  /** Who is turned away before anything is read: an ordinary action while a write is unresolved,
      and a recovery nobody needs yet. */
  function Barred(pre: View, action: Action): Option<Failure> {
    if pre.unresolved && !action.RecoverStop? then Some(UnresolvedPriorAction)
    else if action.RecoverStop? && !pre.unresolved && pre.failures < 2 then Some(RecoveryNotAllowed)
    else None
  }

  function SettledManaged(action: Action): Managed {
    match action
    case Start => Linked
    case Stop => Ready
    case Shutdown => Offline
    case RecoverStop => Ready
  }

  function ManagedAfter(before: Managed, action: Action, report: Report): Managed {
    match report.outcome
    case Accepted => SettledManaged(action)
    case AcceptedUnconfirmed => SettledManaged(action)
    case Idempotent => before
    case OutcomeUnknown => Unknown
    case PostconditionFailed => Unknown
    case RejectedBeforeSend =>
      (match report.failure
       case Some(JournalUnavailable) => Unknown
       case Some(BackendRejected(_)) => Degraded
       case _ => before)
  }

  /** The books of one action: revision, failure count, managed state, and who was turned away. */
  ghost predicate Accounted(pre: View, action: Action, post: View, report: Report, t: Trace) {
    && post.revision == (if t.marked then Bump(Bump(pre.revision)) else Bump(pre.revision))
    && post.managed == ManagedAfter(pre.managed, action, report)
    && post.failures == (if Barred(pre, action).Some? || (action.Shutdown? && pre.managed == Offline) then pre.failures
                         else if Successful(report.outcome) || report.outcome == Idempotent then 0
                         else CountFailure(pre.failures))
    && (Barred(pre, action).Some? ==>
          t == NOTHING && report.outcome == RejectedBeforeSend && report.failure == Barred(pre, action))
    && (Barred(pre, action).None? && action.Shutdown? && pre.managed == Offline ==> report.outcome == Idempotent)
  }

  /** The books of the marked half. */
  ghost predicate Tallied(failures: nat, action: Action, post: View, report: Report) {
    && post.managed == ManagedAfter(post.managed, action, report)
    && (report.outcome == RejectedBeforeSend ==> report.failure.Some? && report.failure.value.BackendRejected?)
    && report.outcome != Idempotent
    && post.failures == (if Successful(report.outcome) then 0 else CountFailure(failures))
  }

  ghost predicate Reported(pre: View, action: Action, post: View, report: Report) {
    && Coupled(post)
    && report.action == action && report.managed == post.managed && report.revision == post.revision
    && post.last == Some(report)
    && (pre.revision < U64_MAX ==> pre.revision < post.revision)
    && pre.revision <= post.revision
    && report.failure != Some(UnexpectedBackendLifecycle)
  }

  /** One controller action, as every other part of the system may rely on it. */
  ghost predicate Mutated(pre: View, disk: Disk, action: Action, post: View, after: Disk, report: Report, t: Trace) {
    && Reported(pre, action, post, report) && Phases(disk, action, after, t)
    && Explained(pre, action, post, report, t) && Accounted(pre, action, post, report, t)
    && Admission(pre, action, report, t) && Backed(pre, action, post, report, t)
  }

  lemma MarkedActionIsMutation(pre: View, disk: Disk, action: Action, post: View, after: Disk, report: Report, t: Trace)
    requires disk.Dir? && after.Dir? && MarkedDisk(disk, t).Dir? && Coupled(post) && t.marked
    requires pre.unresolved ==> action.RecoverStop?
    requires OfReads(t.preflight) && t.preflight != [] && World.ReadyRead(t.preflight[0]) && World.OfBackend(t.script)
    requires Journal.Marked(disk, JournalAction(action), MarkedDisk(disk, t), true, t.mark)
    requires Journal.Cleared(MarkedDisk(disk, t), after, t.cleared, t.clear)
    requires Concluded(pre.unresolved, action, post, t.script, report, t.check, t.cleared, t.clear)
    requires Backed(pre, action, post, report, t) && Settled(pre, action, t.preflight)
    requires (t.cleared ==> !t.stuck) && (!t.cleared && !t.stuck ==> t.clear == [])
    requires report.failure != Some(UnexpectedBackendLifecycle)
    requires post.revision == Bump(Bump(pre.revision))
    requires Barred(pre, action).None? && !(action.Shutdown? && pre.managed == Offline)
    requires Tallied(pre.failures, action, post, report)
    ensures Mutated(pre, disk, action, post, after, report, t)
  {
  }

  function UnrecordedTrace(preflight: seq<Event>, mark: seq<Disk>): Trace {
    NOTHING.(preflight := preflight, mark := mark, script := [World.Fault])
  }

  /** In its own settled state an action goes on only after a health reading that does not confirm it. */
  ghost predicate Settled(pre: View, action: Action, preflight: seq<Event>) {
    !action.RecoverStop? && pre.managed == SettledManaged(action) ==>
      && preflight != [] && preflight[|preflight| - 1].HealthRead?
      && !Confirms(action, preflight[|preflight| - 1])
  }

  lemma RefusedActionIsMutation(pre: View, disk: Disk, action: Action, post: View, after: Disk, report: Report,
                                preflight: seq<Event>, mark: seq<Disk>)
    requires disk.Dir? && after.Dir? && Journal.Marked(disk, JournalAction(action), after, false, mark)
    requires OfReads(preflight) && preflight != [] && World.ReadyRead(preflight[0]) && Settled(pre, action, preflight)
    requires Coupled(post) && post.unresolved && (pre.unresolved ==> action.RecoverStop?)
    requires report == Report(action, RejectedBeforeSend, post.managed, None, Some(JournalUnavailable), post.revision)
    requires post.last == Some(report) && post.revision == Bump(pre.revision)
    requires Barred(pre, action).None? && !(action.Shutdown? && pre.managed == Offline)
    requires post.failures == CountFailure(pre.failures) && post.managed == Unknown
    ensures Mutated(pre, disk, action, post, after, report, UnrecordedTrace(preflight, mark))
  {
  }

  /** A refusal before anything is recorded. */
  ghost predicate Declined(pre: View, action: Action, post: View, report: Report, preflight: seq<Event>) {
    var t := NOTHING.(preflight := preflight);
    && OfReads(preflight) && Reported(pre, action, post, report)
    && Explained(pre, action, post, report, t) && Accounted(pre, action, post, report, t)
    && Admission(pre, action, report, t)
  }

  /** Two views that differ at most in a bearer that a health check dropped. */
  ghost predicate SameButBearer(pre: View, now: View) { now == pre.(core := pre.core.(bearer := now.core.bearer)) }

  lemma MembershipDeclines(pre: View, action: Action, post: View, report: Report, read: Event)
    requires Coupled(pre) && Barred(pre, action).None? && !(action.Shutdown? && pre.managed == Offline)
    requires report == Report(action, RejectedBeforeSend, pre.managed, None, report.failure, Bump(pre.revision))
    requires NotConfigured(report)
    requires post == pre.(failures := CountFailure(pre.failures), revision := report.revision, last := Some(report))
    requires read.MembershipRead? && !World.ReadyRead(read)
    requires report.failure == Some(if Answers(read) then ExpectedPairNotConfigured else PairConfigurationUnavailable)
    ensures Declined(pre, action, post, report, [read])
  {
  }

  lemma AdoptionDeclines(pre: View, action: Action, post: View, report: Report, read: Event, health: seq<Event>)
    requires Coupled(pre) && Barred(pre, action).None? && !(action.Shutdown? && pre.managed == Offline)
    requires report == Report(action, Idempotent, pre.managed, None, None, Bump(pre.revision))
    requires NativeCore.ViewOk(post.core)
    requires post == pre.(failures := 0, revision := report.revision, last := Some(report),
                          core := pre.core.(bearer := post.core.bearer))
    requires !action.RecoverStop? && pre.managed == SettledManaged(action) && World.ReadyRead(read)
    requires health != [] && OfReads(health) && Confirms(action, health[|health| - 1])
    requires pre.core.lifecycle == NativeCore.SettledLifecycle(action)
    ensures Declined(pre, action, post, report, [read] + health)
  {
    var all := [read] + health;
    assert all[0] == read && all[|all| - 1] == health[|health| - 1];
  }

  lemma DeclinedIsMutation(pre: View, disk: Disk, action: Action, post: View, report: Report, preflight: seq<Event>)
    requires disk.Dir? && Declined(pre, action, post, report, preflight)
    ensures Mutated(pre, disk, action, post, disk, report, NOTHING.(preflight := preflight))
  {
  }

  /** The status snapshot handed to clients. */
  datatype Status = Status(members: Pairing.Members, managed: Managed, health: Backend.Health, unresolved: bool,
                           failures: nat, revision: nat, last: Option<Report>)

  ghost predicate ValidHealthProjection(h: Backend.Health) {
    match h.route
    case StableDirect => h.transport == Backend.BrEdr
    case A2dpWakeThenStable => h.transport == Backend.BrEdr
    case FreshLe => h.transport == Backend.Le
    case Unresolved => true
  }

  /** The validator the local client applies to every status. */
  ghost predicate ValidStatusProjection(s: Status) {
    && Pairing.ValidMembersProjection(s.members)
    && ValidHealthProjection(s.health)
    && (s.last.Some? ==> s.last.value.revision <= s.revision)
  }

  /** A settled state that the backend's health does not confirm. */
  predicate Contradicts(managed: Managed, health: Backend.Health) {
    (managed == Linked || managed == Ready) &&
    !(health.level == Backend.Healthy && !health.reportedError
      && health.lifecycle == (if managed == Linked then Backend.Linked else Backend.Ready))
  }

  /** A status read may only notice lost certainty; it never writes and never clears. */
  ghost predicate Observed(pre: View, post: View) {
    && Coupled(post)
    && (post.managed == pre.managed || post.managed == Unknown)
    && post.revision == (if post.managed == pre.managed then pre.revision else Bump(pre.revision))
    && post == pre.(managed := post.managed, revision := post.revision, core := pre.core.(bearer := post.core.bearer))
  }

  // ---------------------------------------------------------------- implementation

  class PairController {
    const core: NativeCore.Core
    const journal: Journal.FileUncertaintyJournal
    const jblIdentity: Pairing.Identity
    const auraIdentity: Pairing.Identity
    var managed: Managed
    var unresolvedAction: bool
    var failures: nat
    var revision: nat
    var last: Option<Report>

    ghost function Look(): View
      reads this, journal, core, core.aura
    {
      View(managed, unresolvedAction, failures, revision, last, journal.state, core.Look())
    }

    /** Journal and backend share one log. */
    ghost predicate Sound()
      reads this, journal, core, core.aura, core.observer.mutation, core.observer.business
    {
      journal.Valid() && core.Valid() && core.log == journal.log
    }

    ghost predicate Valid()
      reads this, journal, core, core.aura, core.observer.mutation, core.observer.business
    {
      Sound() && Coupled(Look())
    }

    /** A new process inherits exactly the uncertainty its journal reports. */
    constructor (core: NativeCore.Core, journal: Journal.FileUncertaintyJournal, jbl: Pairing.Identity,
                 aura: Pairing.Identity)
      requires journal.Valid() && core.Valid() && core.log == journal.log
      requires core.Look() == NativeCore.View(Backend.Offline, None, None)
      ensures Valid() && this.core == core && this.journal == journal
      ensures Look() == View(Unknown, journal.state.Pending?, if journal.state.Pending? then 1 else 0, 0, None,
                             journal.state, core.Look())
    {
      this.core, this.journal, jblIdentity, auraIdentity := core, journal, jbl, aura;
      managed, unresolvedAction := Unknown, journal.IsPending();
      failures, revision, last := if journal.IsPending() then 1 else 0, 0, None;
    }

    /** One membership read; what the device answers is on the log. */
    method ReadPairConfiguration()
      returns (m: Pairing.Members, ghost read: Event, ghost members: seq<Pairing.GroupMember>)
      modifies journal.log
      ensures Pairing.ValidMembersProjection(m)
      ensures read.MembershipRead? && read.jbl == jblIdentity && read.aura == auraIdentity
      ensures Pairing.Shown(read.answer, jblIdentity, auraIdentity, m, members)
      ensures m.configuration == Pairing.ConfigurationReady <==> World.ReadyRead(read)
      ensures m.configuration == Pairing.ConfigurationUnavailable <==> !Answers(read)
      ensures journal.log.events == old(journal.log.events) + [read]
    {
      var answer: Option<Pairing.GroupResponse> := *;
      read := World.MembershipRead(answer, jblIdentity, auraIdentity);
      journal.log.events := journal.log.events + [read];
      m, members := Pairing.ReadPairConfiguration(answer, jblIdentity, auraIdentity);
    }

    /** The same read where only the state of the configuration matters. */
    method ReadConfiguration() returns (configuration: Pairing.Configuration, ghost read: Event)
      modifies journal.log
      ensures read.MembershipRead?
      ensures configuration == Pairing.ConfigurationReady <==> World.ReadyRead(read)
      ensures configuration == Pairing.ConfigurationUnavailable <==> !Answers(read)
      ensures journal.log.events == old(journal.log.events) + [read]
    {
      var m, event, members := ReadPairConfiguration();
      configuration, read := m.configuration, event;
    }

    method Finish(action: Action, outcome: Outcome, evidence: Option<Backend.Evidence>, failure: Option<Failure>)
      returns (report: Report)
      modifies this`revision, this`last
      ensures revision == Bump(old(revision))
      ensures report == Report(action, outcome, managed, evidence, failure, revision) && last == Some(report)
    {
      revision := Bump(revision);
      report := Report(action, outcome, managed, evidence, failure, revision);
      last := Some(report);
    }

    /** Conservative exit after something may have been written. */
    method FinishUnknown(action: Action, outcome: Outcome, failure: Failure) returns (report: Report)
      modifies this
      ensures managed == Unknown && unresolvedAction && failures == CountFailure(old(failures))
      ensures revision == Bump(old(revision))
      ensures report == Report(action, outcome, managed, None, Some(failure), revision) && last == Some(report)
    {
      failures := CountFailure(failures);
      unresolvedAction, managed := true, Unknown;
      report := Finish(action, outcome, None, Some(failure));
    }

    method HealthMatchesManagedState(health: Backend.Health) returns (matches: bool)
      ensures matches <==> !Contradicts(managed, health)
    {
      var healthy := health.level == Backend.Healthy && !health.reportedError;
      matches := match managed
        case Linked => healthy && health.lifecycle == Backend.Linked
        case Ready => healthy && health.lifecycle == Backend.Ready
        case _ => true;
    }

    /** Every status a client can read passes the client's own validator, and shows what was read. */
    method CurrentStatus()
      returns (status: Status, ghost read: Event, ghost look: seq<Event>, ghost members: seq<Pairing.GroupMember>)
      requires Valid()
      modifies this`managed, this`revision, core.aura, journal.log
      ensures Valid() && Observed(old(Look()), Look())
      ensures ValidStatusProjection(status)
      ensures status == Status(status.members, managed, status.health, unresolvedAction, failures, revision, last)
      ensures managed == (if (old(managed) == Linked && !World.ReadyRead(read))
                             || Contradicts(old(managed), status.health) then Unknown else old(managed))
      ensures read.MembershipRead? && Pairing.Shown(read.answer, jblIdentity, auraIdentity, status.members, members)
      ensures OfReads(look)
      ensures journal.log.events == old(journal.log.events) + [read] + (look + [World.HealthRead(status.health)])
    {
      var shown;
      shown, read, members := ReadPairConfiguration();
      var health;
      health, look := ReconcileHealth(shown.configuration == Pairing.ConfigurationReady);
      status := Status(shown, managed, health, unresolvedAction, failures, revision, last);
    }

    /** Reads the health and drops a settled state that it or the membership does not confirm. */
    method ReconcileHealth(ready: bool) returns (health: Backend.Health, ghost look: seq<Event>)
      requires Valid()
      modifies this`managed, this`revision, core.aura, journal.log
      ensures Valid() && Observed(old(Look()), Look())
      ensures ValidHealthProjection(health) && OfReads(look)
      ensures managed == (if (old(managed) == Linked && !ready) || Contradicts(old(managed), health) then Unknown
                          else old(managed))
      ensures journal.log.events == old(journal.log.events) + (look + [World.HealthRead(health)])
    {
      ghost var bearer;
      health, bearer, look := core.CurrentHealth();
      Reconcile(ready, health);
    }

    /** Drops a settled state that membership or health does not confirm. */
    method Reconcile(ready: bool, health: Backend.Health)
      modifies this`managed, this`revision
      ensures managed == (if (old(managed) == Linked && !ready) || Contradicts(old(managed), health) then Unknown
                          else old(managed))
      ensures revision == if managed == old(managed) then old(revision) else Bump(old(revision))
    {
      var previous := managed;
      var consistent := HealthMatchesManagedState(health);
      if (!ready && managed == Linked) || !consistent { managed := Unknown; }
      if managed != previous { revision := Bump(revision); }
    }

    /** Whether there is nothing to do: the action's own settled state, confirmed by a health reading. */
    method IsIdempotent(action: Action) returns (idempotent: bool, ghost readings: seq<Event>)
      requires Valid()
      modifies core.aura, journal.log
      ensures Valid() && Look() == old(Look()).(core := old(Look()).core.(bearer := core.aura.bearer))
      ensures journal.log.events == old(journal.log.events) + readings && OfReads(readings)
      ensures if action.RecoverStop? || managed != SettledManaged(action) then !idempotent && readings == []
              else && readings != [] && readings[|readings| - 1].HealthRead?
                   && (idempotent <==> Confirms(action, readings[|readings| - 1]))
      ensures idempotent ==> core.lifecycle == NativeCore.SettledLifecycle(action)
    {
      readings := [];
      if action.RecoverStop? { return false, readings; }
      var expected := match action case Start => Linked case Stop => Ready case _ => Offline;
      if managed != expected { return false, readings; }
      var lifecycle := match action case Start => Backend.Linked case Stop => Backend.Ready case _ => Backend.Offline;
      var health, bearer, look := core.CurrentHealth();
      readings := look + [World.HealthRead(health)];
      idempotent := health.lifecycle == lifecycle && health.level == Backend.Healthy && !health.reportedError
                    && health.transport != Backend.UnresolvedTransport;
    }

    /** One pinned backend call. */
    method RunBackend(action: Action) returns (result: Backend.ActionResult, ghost events: seq<Event>)
      requires core.Valid()
      modifies core, core.aura, core.observer.mutation, core.observer.business, core.log
      ensures core.Valid() && NativeCore.Step(old(core.Look()), action, core.Look(), result, events)
      ensures core.log.events == old(core.log.events) + events
    {
      var guard := new Backend.Transaction(Backend.NativePair);
      var refusal := guard.Admit(Backend.NativePair);
      assert refusal.None?;
      var attempted;
      match action {
        case Start => attempted, events := core.Start();
        case Stop => attempted, events := core.Stop();
        case Shutdown => attempted, events := core.Shutdown();
        case RecoverStop => attempted, events := core.RecoverStop();
      }
      result := guard.Settle(attempted, Backend.NativePair);
    }

    /** The checks before anything is recorded; None lets the action through. */
    method Preflight(action: Action) returns (refused: Option<Report>, ghost readings: seq<Event>)
      requires Valid()
      modifies this`failures, this`revision, this`last, core.aura, journal.log
      ensures Valid() && journal.log.events == old(journal.log.events) + readings
      ensures refused.None? ==>
                && SameButBearer(old(Look()), Look())
                && Barred(old(Look()), action).None? && !(action.Shutdown? && old(managed) == Offline)
                && OfReads(readings) && readings != [] && World.ReadyRead(readings[0])
                && Settled(old(Look()), action, readings)
      ensures refused.Some? ==> Declined(old(Look()), action, Look(), refused.value, readings)
    {
      refused, readings := None, [];
      if unresolvedAction && !action.RecoverStop? {
        var report := Finish(action, RejectedBeforeSend, None, Some(UnresolvedPriorAction));
        return Some(report), readings;
      }
      if action.RecoverStop? && !unresolvedAction && failures < 2 {
        var report := Finish(action, RejectedBeforeSend, None, Some(RecoveryNotAllowed));
        return Some(report), readings;
      }
      if action.Shutdown? && managed == Offline {
        var report := Finish(action, Idempotent, None, None);
        return Some(report), readings;
      }
      refused, readings := PreflightReadings(action);
    }

    /** The readings of the preflight: membership first, then whether there is anything to do. */
    method PreflightReadings(action: Action) returns (refused: Option<Report>, ghost readings: seq<Event>)
      requires Valid() && Barred(Look(), action).None? && !(action.Shutdown? && managed == Offline)
      modifies this`failures, this`revision, this`last, core.aura, journal.log
      ensures Valid() && journal.log.events == old(journal.log.events) + readings
      ensures refused.None? ==>
                && SameButBearer(old(Look()), Look())
                && OfReads(readings) && readings != [] && World.ReadyRead(readings[0])
                && Settled(old(Look()), action, readings)
      ensures refused.Some? ==> Declined(old(Look()), action, Look(), refused.value, readings)
    {
      ghost var read, health;
      refused, read := CheckMembership(action);
      readings := [read];
      if refused.Some? { return; }
      refused, health := AdoptIfDone(action, read);
      readings := [read] + health;
      World.Assoc(old(journal.log.events), [read], health);
    }

    /** The membership must be ready before anything else is looked at. */
    method CheckMembership(action: Action) returns (refused: Option<Report>, ghost read: Event)
      requires Valid() && Barred(Look(), action).None? && !(action.Shutdown? && managed == Offline)
      modifies this`failures, this`revision, this`last, journal.log
      ensures Valid() && journal.log.events == old(journal.log.events) + [read] && read.MembershipRead?
      ensures refused.None? ==> Look() == old(Look()) && World.ReadyRead(read)
      ensures refused.Some? ==> Declined(old(Look()), action, Look(), refused.value, [read])
    {
      ghost var pre := Look();
      var configuration;
      configuration, read := ReadConfiguration();
      if configuration == Pairing.ConfigurationReady { return None, read; }
      failures := CountFailure(failures);
      var failure := if configuration.ConfigurationNotReady? then ExpectedPairNotConfigured
                     else PairConfigurationUnavailable;
      var report := Finish(action, RejectedBeforeSend, None, Some(failure));
      MembershipDeclines(pre, action, Look(), report, read);
      refused := Some(report);
    }

    /** After a ready membership read: answers at once when there is nothing to do. */
    method AdoptIfDone(action: Action, ghost read: Event) returns (refused: Option<Report>, ghost health: seq<Event>)
      requires Valid() && Barred(Look(), action).None? && !(action.Shutdown? && managed == Offline)
      requires World.ReadyRead(read)
      modifies this`failures, this`revision, this`last, core.aura, journal.log
      ensures Valid() && journal.log.events == old(journal.log.events) + health && OfReads(health)
      ensures refused.None? ==> SameButBearer(old(Look()), Look()) && Settled(old(Look()), action, [read] + health)
      ensures refused.Some? ==> Declined(old(Look()), action, Look(), refused.value, [read] + health)
    {
      ghost var pre := Look();
      refused := None;
      var idempotent;
      idempotent, health := IsIdempotent(action);
      if idempotent {
        failures := 0;
        var report := Finish(action, Idempotent, None, None);
        AdoptionDeclines(pre, action, Look(), report, read, health);
        return Some(report), health;
      }
      if health != [] { assert ([read] + health)[|health|] == health[|health| - 1]; }
    }

    /** One public mutation: what it does to the world is exactly its trace. */
    method Mutate(action: Action) returns (report: Report, ghost trace: Trace)
      requires Valid()
      modifies this, journal, core, core.aura, core.observer.mutation, core.observer.business, journal.log
      ensures Valid()
      ensures Mutated(old(Look()), old(journal.disk), action, Look(), journal.disk, report, trace)
      ensures journal.log.events == old(journal.log.events) + Flat(trace)
    {
      ghost var pre := Look();
      var refused, readings := Preflight(action);
      if refused.Some? {
        report, trace := refused.value, NOTHING.(preflight := readings);
        DeclinedIsMutation(pre, journal.disk, action, Look(), report, readings);
        assert Acts(trace) == [];
        return;
      }
      report, trace := MarkAndRun(action, pre, readings);
      World.Assoc(old(journal.log.events), readings, Acts(trace));
    }

    /** An admitted action: publish the record, then run. */
    method MarkAndRun(action: Action, ghost pre: View, ghost readings: seq<Event>)
      returns (report: Report, ghost trace: Trace)
      requires Admitted(action, pre, readings)
      modifies this, journal, core, core.aura, core.observer.mutation, core.observer.business, journal.log
      ensures Valid() && trace.preflight == readings
      ensures Mutated(pre, old(journal.disk), action, Look(), journal.disk, report, trace)
      ensures journal.log.events == old(journal.log.events) + Acts(trace)
    {
      ghost var disk := journal.disk;
      var hadUncertainty := unresolvedAction;
      var marked, mark := journal.MarkPending(JournalAction(action));
      if !marked {
        report, trace := RefuseUnmarked(action, pre, disk, readings, mark);
        UnrecordedActs(readings, mark);
        return;
      }
      report, trace := RunRecorded(action, hadUncertainty, pre, disk, readings, mark);
      ghost var rest := trace.script + Settling(trace.check, trace.clear, trace.stuck);
      assert World.Disks(mark) + World.Faults(true) == World.Disks(mark);
      World.Assoc(old(journal.log.events), World.Disks(mark), rest);
    }

    ghost predicate Admitted(action: Action, pre: View, readings: seq<Event>)
      reads this, journal, core, core.aura, core.observer.mutation, core.observer.business
    {
      && Valid() && SameButBearer(pre, Look())
      && Barred(pre, action).None? && !(action.Shutdown? && pre.managed == Offline)
      && OfReads(readings) && readings != [] && World.ReadyRead(readings[0]) && Settled(pre, action, readings)
    }

    /** The run of a recorded action, put together with what preceded it. */
    method RunRecorded(action: Action, hadUncertainty: bool, ghost pre: View, ghost disk: Disk,
                       ghost readings: seq<Event>, ghost mark: seq<Disk>)
      returns (report: Report, ghost trace: Trace)
      requires Reducible(action, hadUncertainty) && (core.unresolved.Some? ==> hadUncertainty)
      requires pre.unresolved == hadUncertainty && pre.failures == failures && pre.revision == revision
      requires pre.core.lifecycle == core.lifecycle
      requires Barred(pre, action).None? && !(action.Shutdown? && pre.managed == Offline)
      requires OfReads(readings) && readings != [] && World.ReadyRead(readings[0]) && Settled(pre, action, readings)
      requires disk.Dir? && Journal.Marked(disk, JournalAction(action), journal.disk, true, mark)
      modifies this, journal, core, core.aura, core.observer.mutation, core.observer.business, journal.log
      ensures Valid() && trace.preflight == readings && trace.mark == mark
      ensures Mutated(pre, disk, action, Look(), journal.disk, report, trace)
      ensures journal.log.events == old(journal.log.events) + (trace.script + Settling(trace.check, trace.clear,
          trace.stuck))
    {
      ghost var marked := journal.disk;
      ghost var answer, script, check, cleared, clear, stuck;
      report, answer, script, check, cleared, clear, stuck := RunMarked(action, hadUncertainty);
      trace := Trace(readings, true, mark, Some(answer), script, check, cleared, clear, stuck);
      assert MarkedDisk(disk, trace) == marked;
      MarkedActionIsMutation(pre, disk, action, Look(), journal.disk, report, trace);
    }

    /** The record could not be published; whatever memory latched stays latched. */
    method RefuseUnmarked(action: Action, ghost pre: View, ghost disk: Disk, ghost readings: seq<Event>,
                          ghost mark: seq<Disk>)
      returns (report: Report, ghost trace: Trace)
      requires Sound() && journal.state.Pending? && Barred(pre, action).None?
               && !(action.Shutdown? && pre.managed == Offline)
      requires pre.failures == failures <= U8_MAX && pre.revision == revision <= U64_MAX
      requires OfReads(readings) && readings != [] && World.ReadyRead(readings[0]) && Settled(pre, action, readings)
      requires disk.Dir? && Journal.Marked(disk, JournalAction(action), journal.disk, false, mark)
      modifies this
      ensures Valid() && trace == UnrecordedTrace(readings, mark)
      ensures Mutated(pre, disk, action, Look(), journal.disk, report, trace)
    {
      failures := CountFailure(failures);
      if journal.IsPending() { unresolvedAction, managed := true, Unknown; }
      report := Finish(action, RejectedBeforeSend, None, Some(JournalUnavailable));
      trace := UnrecordedTrace(readings, mark);
      RefusedActionIsMutation(pre, disk, action, Look(), journal.disk, report, readings, mark);
    }

    /** The marked half of an action: one backend transaction and its reduction. */
    method RunMarked(action: Action, hadUncertainty: bool)
      returns (report: Report, ghost answer: Backend.ActionResult, ghost script: seq<Event>, ghost check: seq<Event>,
               ghost cleared: bool, ghost clear: seq<Disk>, ghost stuck: bool)
      requires Reducible(action, hadUncertainty) && (core.unresolved.Some? ==> hadUncertainty)
      modifies this, journal, core, core.aura, core.observer.mutation, core.observer.business, journal.log
      ensures Valid() && Journal.Cleared(old(journal.disk), journal.disk, cleared, clear)
      ensures Concluded(hadUncertainty, action, Look(), script, report, check, cleared, clear)
      ensures NativeCore.Outcome(old(core.lifecycle), action, core.Look(), answer, script)
      ensures Settles(hadUncertainty, answer, report, check, cleared, stuck) && TriedOrNot(cleared, clear, stuck)
      ensures Tallied(old(failures), action, Look(), report)
      ensures report.failure != Some(UnexpectedBackendLifecycle)
      ensures revision == Bump(Bump(old(revision)))
      ensures journal.log.events == old(journal.log.events) + (script + Settling(check, clear, stuck))
    {
      managed := match action
        case Start => Linking
        case Stop => Unlinking
        case Shutdown => ShuttingDown
        case RecoverStop => Recovering;
      revision := Bump(revision);
      ghost var before := core.Look();
      var attempted, events := RunBackend(action);
      answer, script := attempted, events;
      report, check, cleared, clear, stuck := ReduceBackendResult(action, attempted, hadUncertainty, before, script);
      World.Assoc(old(journal.log.events), script, Settling(check, clear, stuck));
    }

    /** Turns the backend's answer into the public outcome and settles the journal. */
    method ReduceBackendResult(action: Action, attempted: Backend.ActionResult, hadUncertainty: bool,
                               ghost before: NativeCore.View, ghost script: seq<Event>)
      returns (report: Report, ghost check: seq<Event>, ghost cleared: bool, ghost clear: seq<Disk>, ghost stuck: bool)
      requires Reducible(action, hadUncertainty)
      requires before.unresolved.Some? ==> hadUncertainty
      requires NativeCore.Step(before, action, core.Look(), attempted, script)
      modifies this, journal, journal.log
      ensures Valid() && Journal.Cleared(old(journal.disk), journal.disk, cleared, clear)
      ensures Concluded(hadUncertainty, action, Look(), script, report, check, cleared, clear)
      ensures Settles(hadUncertainty, attempted, report, check, cleared, stuck) && TriedOrNot(cleared, clear, stuck)
      ensures Tallied(old(failures), action, Look(), report)
      ensures report.failure != Some(UnexpectedBackendLifecycle)
      ensures revision == Bump(old(revision))
      ensures journal.log.events == old(journal.log.events) + Settling(check, clear, stuck)
    {
      check, cleared, clear, stuck := [], false, [], false;
      match attempted {
        case RejectedBeforeSend(failure) =>
          report, cleared, clear, stuck := ReduceRejected(action, failure, hadUncertainty, script);
          NoCheck(clear, stuck);
        case OutcomeUnknown(failure) =>
          report := FinishUnknown(action, OutcomeUnknown, BackendUnknown(failure.reason));
          UnknownConcludes(hadUncertainty, action, Look(), script, report, check, clear);
          NoCheck(clear, stuck);
        case Accepted(receipt) =>
          report, check, cleared, clear, stuck := ReduceAccepted(action, receipt, hadUncertainty, script);
      }
    }

    /** Between the mark and the end of the action. */
    ghost predicate Reducible(action: Action, hadUncertainty: bool)
      reads this, journal, core, core.aura, core.observer.mutation, core.observer.business
    {
      && Sound() && journal.state.Pending? && unresolvedAction == hadUncertainty
      && (hadUncertainty ==> action.RecoverStop?)
      && failures <= U8_MAX && revision <= U64_MAX
    }

    method ReduceRejected(action: Action, failure: Backend.ActionFailure, hadUncertainty: bool,
                          ghost script: seq<Event>)
      returns (report: Report, ghost cleared: bool, ghost clear: seq<Disk>, ghost stuck: bool)
      requires Reducible(action, hadUncertainty) && !World.HasWrite(script)
      requires core.unresolved.None? && core.lifecycle == Backend.Degraded
      modifies this, journal, journal.log
      ensures Valid() && Journal.Cleared(old(journal.disk), journal.disk, cleared, clear)
      ensures Concluded(hadUncertainty, action, Look(), script, report, [], cleared, clear)
      ensures Settles(hadUncertainty, Backend.RejectedBeforeSend(failure), report, [], cleared, stuck)
      ensures TriedOrNot(cleared, clear, stuck) && Tallied(old(failures), action, Look(), report)
      ensures report.failure != Some(UnexpectedBackendLifecycle)
      ensures revision == Bump(old(revision))
      ensures journal.log.events == old(journal.log.events) + (World.Disks(clear) + World.Faults(!stuck))
    {
      cleared, clear, stuck := false, [], false;
      assert World.Disks(clear) + World.Faults(!stuck) == [];
      // An older uncertainty survives a rejected recovery.
      var mayClear := !action.RecoverStop? || !hadUncertainty;
      if mayClear {
        var ok, steps := journal.Clear();
        cleared, clear, stuck := ok, steps, !ok;
        if !ok {
          report := JournalCommitFails(action, hadUncertainty, script, [], clear);
          return;
        }
      } else {
        unresolvedAction := true;
      }
      report := DeclareRejected(action, failure, hadUncertainty, script, cleared, clear);
    }

    /** The books of a rejected action. */
    method DeclareRejected(action: Action, failure: Backend.ActionFailure, hadUncertainty: bool,
                           ghost script: seq<Event>, ghost cleared: bool, ghost clear: seq<Disk>)
      returns (report: Report)
      requires Sound() && failures <= U8_MAX && revision <= U64_MAX && !World.HasWrite(script)
      requires core.unresolved.None? && core.lifecycle == Backend.Degraded
      requires unresolvedAction <==> journal.state.Pending?
      requires hadUncertainty ==> unresolvedAction && !cleared && clear == []
      modifies this
      ensures Valid() && Concluded(hadUncertainty, action, Look(), script, report, [], cleared, clear)
      ensures report.outcome == RejectedBeforeSend && report.failure == Some(BackendRejected(failure.reason))
      ensures Tallied(old(failures), action, Look(), report)
      ensures revision == Bump(old(revision))
    {
      failures, managed := CountFailure(failures), Degraded;
      report := Finish(action, RejectedBeforeSend, None, Some(BackendRejected(failure.reason)));
      RejectedConcludes(hadUncertainty, action, Look(), script, report, cleared, clear);
    }

    /** The record could not be cleared: the uncertainty stays. */
    method JournalCommitFails(action: Action, hadUncertainty: bool, ghost script: seq<Event>, ghost check: seq<Event>,
                              ghost clear: seq<Disk>)
      returns (report: Report)
      requires Reducible(action, hadUncertainty) && OfReads(check)
      modifies this
      ensures Valid() && Concluded(hadUncertainty, action, Look(), script, report, check, false, clear)
      ensures report.outcome == OutcomeUnknown && report.failure == Some(JournalCommitFailed) && report.evidence.None?
      ensures Tallied(old(failures), action, Look(), report)
      ensures revision == Bump(old(revision))
    {
      report := FinishUnknown(action, OutcomeUnknown, JournalCommitFailed);
      UnknownConcludes(hadUncertainty, action, Look(), script, report, check, clear);
    }

    method ReduceAccepted(action: Action, receipt: Backend.Receipt, hadUncertainty: bool, ghost script: seq<Event>)
      returns (report: Report, ghost check: seq<Event>, ghost cleared: bool, ghost clear: seq<Disk>, ghost stuck: bool)
      requires Reducible(action, hadUncertainty) && core.unresolved.None?
      requires receipt.lifecycle == NativeCore.ReceiptLifecycle(action) ==>
                 core.lifecycle == NativeCore.SettledLifecycle(action)
      modifies this, journal, journal.log
      ensures Valid() && Journal.Cleared(old(journal.disk), journal.disk, cleared, clear)
      ensures Concluded(hadUncertainty, action, Look(), script, report, check, cleared, clear)
      ensures receipt.lifecycle == NativeCore.ReceiptLifecycle(action) ==>
                Settles(hadUncertainty, Backend.Accepted(receipt), report, check, cleared, stuck)
      ensures TriedOrNot(cleared, clear, stuck) && Tallied(old(failures), action, Look(), report)
      ensures report.failure == Some(UnexpectedBackendLifecycle) <==>
                receipt.lifecycle != NativeCore.ReceiptLifecycle(action)
      ensures revision == Bump(old(revision))
      ensures journal.log.events == old(journal.log.events) + Settling(check, clear, stuck)
    {
      check, cleared, clear, stuck := [], false, [], false;
      if receipt.lifecycle != NativeCore.ReceiptLifecycle(action) {
        report := FinishUnknown(action, OutcomeUnknown, UnexpectedBackendLifecycle);
        UnknownConcludes(hadUncertainty, action, Look(), script, report, check, clear);
        NoCheck(clear, stuck);
        return;
      }
      var configuration, read := ReadConfiguration();
      check := [read];
      if configuration != Pairing.ConfigurationReady {
        report := FinishUnknown(action, PostconditionFailed, MembershipPostconditionFailed);
        UnknownConcludes(hadUncertainty, action, Look(), script, report, check, clear);
        CheckOnly(check);
        return;
      }
      report, cleared, clear, stuck := SettleAccepted(action, receipt.evidence, hadUncertainty, script, check);
      World.Assoc(old(journal.log.events), check, World.Disks(clear) + World.Faults(!stuck));
    }

    /** Clears the record of an accepted and re-checked action. */
    method SettleAccepted(action: Action, evidence: Backend.Evidence, hadUncertainty: bool, ghost script: seq<Event>,
                          ghost check: seq<Event>)
      returns (report: Report, ghost cleared: bool, ghost clear: seq<Disk>, ghost stuck: bool)
      requires Reducible(action, hadUncertainty) && core.unresolved.None? && Rechecked(check)
      requires core.lifecycle == NativeCore.SettledLifecycle(action)
      modifies this, journal, journal.log
      ensures Valid() && Journal.Cleared(old(journal.disk), journal.disk, cleared, clear)
      ensures Concluded(hadUncertainty, action, Look(), script, report, check, cleared, clear)
      ensures stuck == !cleared
      ensures if cleared then report.failure.None? && report.evidence == Some(evidence) && Successful(report.outcome)
              else report.outcome == OutcomeUnknown && report.failure == Some(JournalCommitFailed)
      ensures Tallied(old(failures), action, Look(), report)
      ensures revision == Bump(old(revision))
      ensures journal.log.events == old(journal.log.events) + (World.Disks(clear) + World.Faults(!stuck))
    {
      var ok, steps := journal.Clear();
      cleared, clear, stuck := ok, steps, !ok;
      if !ok {
        report := JournalCommitFails(action, hadUncertainty, script, check, clear);
        return;
      }
      report := Confirm(action, evidence, hadUncertainty, script, check, clear);
    }

    /** The settled books of an accepted action. */
    method Confirm(action: Action, evidence: Backend.Evidence, hadUncertainty: bool, ghost script: seq<Event>,
                   ghost check: seq<Event>, ghost clear: seq<Disk>)
      returns (report: Report)
      requires Sound() && !journal.state.Pending? && core.unresolved.None? && Rechecked(check) && revision <= U64_MAX
      requires core.lifecycle == NativeCore.SettledLifecycle(action)
      modifies this
      ensures Valid() && Concluded(hadUncertainty, action, Look(), script, report, check, true, clear)
      ensures report == Report(action, AcceptedAs(evidence), managed, Some(evidence), None, revision)
      ensures Tallied(old(failures), action, Look(), report)
      ensures revision == Bump(old(revision))
    {
      failures, unresolvedAction := 0, false;
      managed := match action
        case Start => Linked
        case Stop => Ready
        case Shutdown => Offline
        case RecoverStop => Ready;
      report := Finish(action, AcceptedAs(evidence), Some(evidence), None);
      AcceptedConcludes(hadUncertainty, action, Look(), script, report, check, clear);
    }

    method TeardownTransportForExit() returns (ok: bool)
      requires Valid()
      modifies core.aura, journal.log
      ensures Valid() && Look() == old(Look()).(core := old(Look()).core.(bearer := core.aura.bearer))
      ensures ok ==> core.aura.bearer.None?
      ensures journal.log.events == old(journal.log.events) + [if ok then World.Teardown else World.Fault]
    {
      ok := core.TeardownTransport();
    }
  }

  /** A clearing leaves disks only when it was tried. */
  predicate TriedOrNot(cleared: bool, clear: seq<Disk>, stuck: bool) {
    (cleared ==> !stuck) && (!cleared && !stuck ==> clear == [])
  }

  lemma NoCheck(clear: seq<Disk>, stuck: bool)
    ensures Settling([], clear, stuck) == World.Disks(clear) + World.Faults(!stuck)
    ensures clear == [] && !stuck ==> Settling([], clear, stuck) == []
  {
  }

  lemma CheckOnly(check: seq<Event>)
    ensures Settling(check, [], false) == check
  {
  }

  lemma UnrecordedActs(readings: seq<Event>, mark: seq<Disk>)
    ensures Acts(UnrecordedTrace(readings, mark)) == World.Disks(mark) + [World.Fault]
  {
  }
}
