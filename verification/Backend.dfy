/** Whole-pair backend vocabulary, health projection, and the transaction guard. */
module Backend {
  import opened Wrappers
  import Acquisition

  datatype Kind = LegacyV04WholePair | NativePair

  datatype Lifecycle =
    | Offline | Initializing | Connecting | Ready | Linking | Linked | Unlinking
    | Degraded | Recovering | ShuttingDown | Failed

  datatype HealthLevel = Healthy | Transitioning | DegradedLevel | UnavailableLevel

  datatype ControlTransport = Le | BrEdr | UnresolvedTransport | UnknownTransport

  datatype Evidence =
    | LocalSessionState
    | LifecycleAcknowledgement
    | BroadcastAcknowledgementOnly
    | BroadcastBusinessNotification

  datatype BroadcastFailure = TimedOut | BroadcastUnavailable | BroadcastRejected

  /** Acquisition and command reasons are carried unprojected; the source flattens them. */
  datatype BackendError =
    | Unavailable
    | AuraAcquisition(reason: Acquisition.AuraFailureReason)
    | AuraCommand(reason: Acquisition.AuraFailureReason)
    | AuraStartOutcomeUnknown
    | JblEnterOutcomeUnknown
    | JblExitOutcomeUnknown
    | JblBroadcastResult(failure: BroadcastFailure)
    | BackendReportedFailure
    | BackendChangedDuringTransaction

  datatype ActionFailure = ActionFailure(backend: Kind, reason: BackendError, observed: Option<Lifecycle>)

  datatype Receipt = Receipt(backend: Kind, lifecycle: Lifecycle, evidence: Evidence, idempotent: bool)

  datatype ActionResult =
    | Accepted(receipt: Receipt)
    | RejectedBeforeSend(failure: ActionFailure)
    | OutcomeUnknown(failure: ActionFailure)
  {
    function Backend(): Kind { if Accepted? then receipt.backend else failure.backend }

    function Observed(): Option<Lifecycle> { if Accepted? then Some(receipt.lifecycle) else failure.observed }
  }

  datatype Health = Health(backend: Kind, lifecycle: Lifecycle, level: HealthLevel, reportedError: bool,
                           transport: ControlTransport, route: Acquisition.Route)

  function LevelOf(lifecycle: Lifecycle): HealthLevel {
    match lifecycle
    case Ready => Healthy
    case Linked => Healthy
    case Degraded => DegradedLevel
    case Offline => UnavailableLevel
    case Failed => UnavailableLevel
    case _ => Transitioning
  }

  /** A reported error never leaves a ready or linked backend healthy. */
  function NewHealth(backend: Kind, lifecycle: Lifecycle, reportedError: bool, transport: ControlTransport,
                     route: Acquisition.Route): (h: Health)
    ensures h.level == Healthy <==> (lifecycle == Ready || lifecycle == Linked) && !reportedError
  {
    var settled := lifecycle == Ready || lifecycle == Linked;
    var level := if reportedError && settled then DegradedLevel else LevelOf(lifecycle);
    Health(backend, lifecycle, level, reportedError, transport, route)
  }

  /** Pins one backend for one controller action.  An uncertain action is terminal. */
  class Transaction {
    const expectedKind: Kind
    var unresolved: Option<ActionFailure>

    constructor (kind: Kind)
      ensures expectedKind == kind && unresolved.None?
    {
      expectedKind := kind;
      unresolved := None;
    }

    function Changed(attempted: ActionResult): ActionFailure {
      ActionFailure(expectedKind, BackendChangedDuringTransaction, attempted.Observed())
    }

    /** `before` decides whether the backend may be called at all. */
    method Admit(before: Kind) returns (refusal: Option<ActionResult>)
      ensures unresolved.Some? ==> refusal == Some(OutcomeUnknown(unresolved.value))
      ensures refusal.None? <==> unresolved.None? && before == expectedKind
      ensures refusal.Some? && unresolved.None? ==> refusal.value.RejectedBeforeSend?
    {
      if unresolved.Some? { return Some(OutcomeUnknown(unresolved.value)); }
      if before != expectedKind {
        return Some(RejectedBeforeSend(ActionFailure(expectedKind, BackendChangedDuringTransaction, None)));
      }
      return None;
    }

    /** Checks the answer of an admitted call; a changed backend never upgrades it. */
    method Settle(attempted: ActionResult, after: Kind) returns (result: ActionResult)
      requires unresolved.None?
      modifies this
      ensures result.Accepted? ==> result == attempted
      ensures result.RejectedBeforeSend? <==> attempted.RejectedBeforeSend?
      ensures after == expectedKind && attempted.Backend() == expectedKind ==> result == attempted
      ensures !(after == expectedKind && attempted.Backend() == expectedKind) ==>
                !result.Accepted? && result.failure == Changed(attempted)
      ensures unresolved == if result.OutcomeUnknown? then Some(result.failure) else None
    {
      result := attempted;
      if after != expectedKind || attempted.Backend() != expectedKind {
        var failure := Changed(attempted);
        result := if attempted.RejectedBeforeSend? then RejectedBeforeSend(failure) else OutcomeUnknown(failure);
      }
      if result.OutcomeUnknown? { unresolved := Some(result.failure); }
    }
  }
}
