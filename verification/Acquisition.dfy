/**
 Acquisition of one verified Aura control bearer: the cold-connect chain with its
 temporary A2DP wake, the retry schedule of the LE path, and the event-driven
 freshness rule of one scan.
 */
module Acquisition {
  import opened Wrappers

  datatype AuraFailureReason =
    | InvalidConfiguration | RuntimeUnavailable | AdapterUnavailable | AdapterPoweredOff
    | DiscoveryUnavailable | VerifiedAdvertisementNotFound | DeviceConnectionFailed
    | WakeProfileConnectFailed | WakeFddfTimedOut | WakeFddfInvalid | WakeFddfUnavailable
    | WakeProfileReleaseFailed | GattProfileInvalid | NotificationSetupFailed
    | TransportNotReady | NotificationQueueInvalid | WriteFailed | AcknowledgementTimedOut
    | AcknowledgementChannelClosed | UnexpectedAcknowledgement | DisconnectFailed

  datatype Transport = Le | BrEdr

  datatype Route = StableDirect | A2dpWakeThenStable | FreshLe | Unresolved

  /** An acquired bearer remembers how it was acquired. */
  datatype Bearer = Bearer(transport: Transport, route: Route)

  predicate RouteMatchesTransport(bearer: Bearer) {
    match bearer.route
    case StableDirect => bearer.transport == BrEdr
    case A2dpWakeThenStable => bearer.transport == BrEdr
    case FreshLe => bearer.transport == Le
    case Unresolved => true
  }

  // ---------------------------------------------------------------- wake

  datatype WakeIo = Unavailable | TimedOut | Rejected

  datatype StableState = StableState(exactIdentity: bool, publicAddress: bool, paired: bool, trusted: bool,
                                     blocked: bool)

  datatype Fddf = Fddf(isFresh: bool, resolvablePrivate: bool, productId: nat, identityMatches: bool)

  datatype WakeTimings = WakeTimings(connect: nat, fddf: nat, release: nat)

  datatype WakeFailure =
    | WakeInvalidConfiguration | StableDeviceUnavailable | StableIdentityMismatch | StableAddressInvalid
    | StableDeviceNotPaired | StableDeviceNotTrusted | StableDeviceBlocked | ProfileConnectFailed
    | FreshFddfUnavailable | FreshFddfTimedOut | FreshFddfInvalid | ProfileReleaseFailed

  datatype Cleanup = NotNeeded | Released | ReleaseFailed

  datatype WakeError = WakeError(failure: WakeFailure, cleanup: Cleanup)

  /** Everything BlueZ and the advertisement observer answer during one wake. */
  datatype WakeEnv = WakeEnv(
    inspect: Result<StableState, WakeIo>,
    connect: Result<(), WakeIo>,
    fddf: Result<Option<Fddf>, WakeIo>,
    disconnect: Result<(), WakeIo>,
    released: Result<bool, WakeIo>)

  datatype ChainEvent =
    | RawAtt(route: Route)
    | ProfileConnect
    | AwaitFddf
    | ProfileDisconnect
    | ReleaseObserved
    | ReleaseNotObserved

  const AURA_STUDIO_5_PRODUCT_ID: nat := 0x212d

  function ValidateWakeTimings(timings: WakeTimings): Result<(), WakeFailure> {
    if 0 < timings.connect <= 20_000 && 0 < timings.fddf <= 30_000 && 0 < timings.release <= 10_000
    then Ok(()) else Err(WakeInvalidConfiguration)
  }

  function ValidateStableState(state: StableState): Result<(), WakeFailure> {
    if !state.exactIdentity then Err(StableIdentityMismatch)
    else if !state.publicAddress then Err(StableAddressInvalid)
    else if !state.paired then Err(StableDeviceNotPaired)
    else if !state.trusted then Err(StableDeviceNotTrusted)
    else if state.blocked then Err(StableDeviceBlocked)
    else Ok(())
  }

  function ValidateFddf(observation: Fddf): Result<(), WakeFailure> {
    if observation.isFresh && observation.resolvablePrivate && observation.productId == AURA_STUDIO_5_PRODUCT_ID
       && observation.identityMatches
    then Ok(()) else Err(FreshFddfInvalid)
  }

  predicate VerifiedStable(env: WakeEnv) {
    env.inspect.Ok? && env.inspect.value.exactIdentity && env.inspect.value.publicAddress
    && env.inspect.value.paired && env.inspect.value.trusted && !env.inspect.value.blocked
  }

  predicate VerifiedFresh(env: WakeEnv) {
    env.fddf.Ok? && env.fddf.value.Some? && env.fddf.value.value.isFresh && env.fddf.value.value.resolvablePrivate
    && env.fddf.value.value.productId == AURA_STUDIO_5_PRODUCT_ID && env.fddf.value.value.identityMatches
  }

  method ReleaseProfile(env: WakeEnv, before: seq<ChainEvent>) returns (cleanup: Cleanup, trace: seq<ChainEvent>)
    ensures cleanup == if env.released == Ok(true) then Released else ReleaseFailed
    ensures trace == before + [ProfileDisconnect, if cleanup.Released? then ReleaseObserved else ReleaseNotObserved]
  {
    // The confirmation is authoritative whatever DisconnectProfile answered.
    trace := before + [ProfileDisconnect];
    match env.released {
      case Ok(true) => cleanup, trace := Released, trace + [ReleaseObserved];
      case Ok(false) => cleanup, trace := ReleaseFailed, trace + [ReleaseNotObserved];
      case Err(_) => cleanup, trace := ReleaseFailed, trace + [ReleaseNotObserved];
    }
  }

  /** What one attempted wake does, in order. */
  function WakeSteps(env: WakeEnv): seq<ChainEvent> {
    (if env.connect.Ok? then [ProfileConnect, AwaitFddf] else [ProfileConnect])
    + [ProfileDisconnect, if env.released == Ok(true) then ReleaseObserved else ReleaseNotObserved]
  }

  /** One wake: the profile is attempted only for a verified device, is always released
      again, and success needs fresh verified evidence and an observed release. */
  method AcquireAuraWake(timings: WakeTimings, env: WakeEnv) returns (r: Result<(), WakeError>, trace: seq<ChainEvent>)
    ensures trace == if ValidateWakeTimings(timings).Ok? && VerifiedStable(env) then WakeSteps(env) else []
    ensures r.Ok? <==> trace != [] && env.connect.Ok? && VerifiedFresh(env) && env.released == Ok(true)
    ensures r.Err? ==>
              r.error.cleanup == if trace == [] then NotNeeded
                                 else if env.released == Ok(true) then Released else ReleaseFailed
    ensures r.Err? ==> (MapWakeError(r.error) == WakeProfileReleaseFailed <==> trace != [] && env.released != Ok(true))
  {
    trace := [];
    var valid := ValidateWakeTimings(timings);
    if valid.Err? { return Err(WakeError(valid.error, NotNeeded)), trace; }
    if env.inspect.Err? { return Err(WakeError(StableDeviceUnavailable, NotNeeded)), trace; }
    var stable := ValidateStableState(env.inspect.value);
    if stable.Err? { return Err(WakeError(stable.error, NotNeeded)), trace; }

    trace := [ProfileConnect];
    var primary: Result<(), WakeFailure>;
    if env.connect.Ok? {
      trace := trace + [AwaitFddf];
      match env.fddf {
        case Ok(Some(observation)) => primary := ValidateFddf(observation);
        case Ok(None) => primary := Err(FreshFddfTimedOut);
        case Err(_) => primary := Err(FreshFddfUnavailable);
      }
    } else {
      primary := Err(ProfileConnectFailed);
    }
    var cleanup;
    cleanup, trace := ReleaseProfile(env, trace);
    r := if primary.Err? then Err(WakeError(primary.error, cleanup))
         else if cleanup.Released? then Ok(())
         else Err(WakeError(ProfileReleaseFailed, cleanup));
  }

  function MapWakeError(error: WakeError): AuraFailureReason {
    if error.cleanup.ReleaseFailed? then WakeProfileReleaseFailed
    else
      match error.failure
      case ProfileConnectFailed => WakeProfileConnectFailed
      case FreshFddfTimedOut => WakeFddfTimedOut
      case FreshFddfInvalid => WakeFddfInvalid
      case FreshFddfUnavailable => WakeFddfUnavailable
      case ProfileReleaseFailed => WakeProfileReleaseFailed
      case WakeInvalidConfiguration => InvalidConfiguration
      case _ => DeviceConnectionFailed
  }

  predicate WakeStageFailure(reason: AuraFailureReason) {
    reason in {WakeProfileConnectFailed, WakeFddfTimedOut, WakeFddfInvalid, WakeFddfUnavailable,
               WakeProfileReleaseFailed}
  }

  predicate RawAttRetryEligible(reason: AuraFailureReason) {
    reason in {DeviceConnectionFailed, GattProfileInvalid, NotificationSetupFailed}
  }

  // ---------------------------------------------------------------- cold connect

  datatype ColdEnv = ColdEnv(
    direct: Result<(), AuraFailureReason>,
    wakeTimings: WakeTimings,
    wake: WakeEnv,
    afterWake: Result<(), AuraFailureReason>,
    le: Result<(), AuraFailureReason>)

  /** No raw ATT attempt follows a profile-connect attempt unless its release was observed in between. */
  ghost predicate A2dpExcluded(trace: seq<ChainEvent>) {
    forall i, j :: 0 <= i < j < |trace| && trace[i] == ProfileConnect && trace[j].RawAtt? ==>
      exists k :: i < k < j && trace[k] == ReleaseObserved
  }

  /** Nothing is attempted twice: one wake, one stable attempt per route, one LE attempt. */
  ghost predicate Once(trace: seq<ChainEvent>) {
    forall i, j :: 0 <= i < j < |trace| ==> trace[i] != trace[j]
  }

  const STABLE: ChainEvent := RawAtt(StableDirect)
  const WOKEN: ChainEvent := RawAtt(A2dpWakeThenStable)
  const LE: ChainEvent := RawAtt(FreshLe)

  function Chain(woke: bool, env: WakeEnv, tail: seq<ChainEvent>): seq<ChainEvent> {
    [STABLE] + (if woke then WakeSteps(env) else []) + tail
  }

  lemma ChainIsOrderly(woke: bool, env: WakeEnv, tail: seq<ChainEvent>)
    requires tail == [] || tail == [WOKEN] || tail == [WOKEN, LE] || tail == [LE]
    requires woke && tail != [] ==> env.released == Ok(true)
    ensures Once(Chain(woke, env, tail)) && A2dpExcluded(Chain(woke, env, tail))
  {
    var last := if env.released == Ok(true) then ReleaseObserved else ReleaseNotObserved;
    var start :=
      if !woke then [STABLE]
      else if env.connect.Ok? then [STABLE, ProfileConnect, AwaitFddf, ProfileDisconnect, last]
      else [STABLE, ProfileConnect, ProfileDisconnect, last];
    assert Chain(woke, env, tail) == start + tail;
    OnceJoin(start, tail);
    if woke { WokenTail(start, tail); }
  }

  lemma OnceJoin(a: seq<ChainEvent>, b: seq<ChainEvent>)
    requires Once(a) && Once(b) && forall i, j :: 0 <= i < |a| && 0 <= j < |b| ==> a[i] != b[j]
    ensures Once(a + b)
  {
  }

  /** A tail of raw attempts may only follow an observed release. */
  lemma WokenTail(woken: seq<ChainEvent>, tail: seq<ChainEvent>)
    requires woken != [] && (tail != [] ==> woken[|woken| - 1] == ReleaseObserved)
    requires forall j :: 1 <= j < |woken| ==> !woken[j].RawAtt?
    requires forall j :: 0 <= j < |tail| ==> tail[j].RawAtt?
    ensures A2dpExcluded(woken + tail)
  {
    var trace := woken + tail;
    forall i, j | 0 <= i < j < |trace| && trace[i] == ProfileConnect && trace[j].RawAtt?
      ensures exists k :: i < k < j && trace[k] == ReleaseObserved
    {
      assert trace[|woken| - 1] == ReleaseObserved;
    }
  }

  /** The chain is one stable attempt, at most one wake, and a tail of raw ATT attempts that
      stays empty when the wake's release was not observed; a bearer comes from the last attempt. */
  ghost predicate Lawful(env: ColdEnv, r: Result<Bearer, AuraFailureReason>, trace: seq<ChainEvent>,
                         woke: bool, tail: seq<ChainEvent>)
  {
    && trace == Chain(woke, env.wake, tail)
    && (woke && env.wake.released != Ok(true) ==> tail == [] && r == Err(WakeProfileReleaseFailed))
    && (r.Ok? ==>
          RouteMatchesTransport(r.value) && RawAtt(r.value.route) == (if tail == [] then STABLE else tail[|tail| - 1]))
  }

  /** Only a connection, profile or setup failure lets the chain go on. */
  ghost predicate Eligible(attempt: Result<(), AuraFailureReason>) {
    || attempt == Err(DeviceConnectionFailed) || attempt == Err(GattProfileInvalid)
    || attempt == Err(NotificationSetupFailed)
  }

  ghost predicate WakeSucceeds(env: ColdEnv) {
    ValidateWakeTimings(env.wakeTimings).Ok? && VerifiedStable(env.wake) && env.wake.connect.Ok?
      && VerifiedFresh(env.wake)
    && env.wake.released == Ok(true)
  }

  /** Exactly when each later stage is attempted, and when the whole chain succeeds. */
  ghost predicate Exact(env: ColdEnv, r: Result<Bearer, AuraFailureReason>, woke: bool, tail: seq<ChainEvent>) {
    && (woke <==> Eligible(env.direct) && ValidateWakeTimings(env.wakeTimings).Ok? && VerifiedStable(env.wake))
    && (WOKEN in tail <==> Eligible(env.direct) && WakeSucceeds(env))
    && (LE in tail <==>
          Eligible(env.direct) && (woke ==> env.wake.released == Ok(true))
            && (WakeSucceeds(env) ==> Eligible(env.afterWake)))
    && (r.Ok? <==> env.direct.Ok? || (WOKEN in tail && env.afterWake.Ok?) || (LE in tail && env.le.Ok?))
  }

  /** The exact cold-connect chain. */
  method ConnectColdBearer(env: ColdEnv)
    returns (r: Result<Bearer, AuraFailureReason>, trace: seq<ChainEvent>, ghost woke: bool,
             ghost tail: seq<ChainEvent>)
    ensures A2dpExcluded(trace) && Once(trace)
    ensures Lawful(env, r, trace, woke, tail)
    ensures env.direct.Ok? ==> r == Ok(Bearer(BrEdr, StableDirect)) && trace == [STABLE]
    ensures Exact(env, r, woke, tail)
  {
    trace, woke, tail := [STABLE], false, [];
    assert trace == Chain(woke, env.wake, tail);
    ChainIsOrderly(woke, env.wake, tail);
    match env.direct {
      case Ok(_) =>
        r := Ok(Bearer(BrEdr, StableDirect));
        return;
      case Err(reason) =>
        r := Err(reason);
        if !RawAttRetryEligible(reason) { return; }
    }
    var wake, steps := AcquireAuraWake(env.wakeTimings, env.wake);
    woke := steps != [];
    trace := trace + steps;
    assert trace == Chain(woke, env.wake, tail);
    ChainIsOrderly(woke, env.wake, tail);
    var fallback: AuraFailureReason;
    match wake {
      case Ok(_) =>
        trace, tail := trace + [WOKEN], [WOKEN];
        assert trace == Chain(woke, env.wake, tail);
        ChainIsOrderly(woke, env.wake, tail);
        match env.afterWake {
          case Ok(_) =>
            r := Ok(Bearer(BrEdr, A2dpWakeThenStable));
            return;
          case Err(reason) =>
            r := Err(reason);
            if !RawAttRetryEligible(reason) { return; }
            fallback := reason;
        }
      case Err(error) =>
        fallback := MapWakeError(error);
        r := Err(fallback);
        if fallback == WakeProfileReleaseFailed { return; }
    }
    trace, tail := trace + [LE], tail + [LE];
    assert trace == Chain(woke, env.wake, tail);
    ChainIsOrderly(woke, env.wake, tail);
    match env.le {
      case Ok(_) => r := Ok(Bearer(Le, FreshLe));
      case Err(reason) =>
        r := Err(if WakeStageFailure(fallback) || reason == VerifiedAdvertisementNotFound then fallback else reason);
    }
  }

  // ---------------------------------------------------------------- retry schedule

  /** Durations are counted in nanoseconds and saturate the source's duration type. */
  const SECOND: nat := 1_000_000_000
  const MAX_DURATION: nat := 0x1_0000_0000_0000_0000 * SECOND - 1

  datatype Timings = Timings(attempts: nat, window: nat, delay: nat, total: nat, connect: nat, setup: nat, write: nat,
                             ack: nat)

  const DEFAULT_TIMINGS: Timings :=
    Timings(3, 30 * SECOND, 15 * SECOND, 150 * SECOND, 15 * SECOND, 15 * SECOND, 5 * SECOND, 5 * SECOND)

  function Reserved(t: Timings): nat
    requires t.attempts > 0
  {
    t.attempts * t.window + (t.attempts - 1) * t.delay + t.connect + t.setup
  }

  /** `validate`, with the source's overflow checks. */
  predicate ValidTimings(t: Timings) {
    && 0 < t.attempts <= 10
    && 0 < t.window && 0 < t.total <= 600 * SECOND && 0 < t.connect && 0 < t.setup && 0 < t.write && 0 < t.ack
    && t.attempts * t.window <= MAX_DURATION
    && (t.attempts - 1) * t.delay <= MAX_DURATION
    && Reserved(t) <= MAX_DURATION
    && Reserved(t) <= t.total
  }

  /** A connection is known only by a number. */
  type Handle = nat

  datatype Attempt = Attempt(duration: nat, outcome: Result<Handle, AuraFailureReason>)

  function Min(a: nat, b: nat): nat { if a < b then a else b }

  /** Earliest start of attempt `i` when every earlier attempt used its whole scan window. */
  function Slot(t: Timings, i: nat): nat { i * (t.window + t.delay) }

  lemma SlotStep(t: Timings, i: nat)
    ensures Slot(t, i + 1) == Slot(t, i) + t.window + t.delay
  {
  }

  lemma {:induction false} LastSlotLeavesBudget(t: Timings, i: nat)
    requires i < t.attempts
    ensures Slot(t, i) + t.window + t.connect + t.setup <= Reserved(t)
    ensures i == t.attempts - 1 ==> Slot(t, i) + t.window + t.connect + t.setup == Reserved(t)
    decreases t.attempts - i
  {
    if i < t.attempts - 1 {
      LastSlotLeavesBudget(t, i + 1);
      SlotStep(t, i);
    } else {
      assert i * (t.window + t.delay) == (t.attempts - 1) * t.window + (t.attempts - 1) * t.delay;
      assert t.attempts * t.window == (t.attempts - 1) * t.window + t.window;
    }
  }

  /** When attempt `i` is due, if all before it failed: each attempt takes its duration, and a
      delay follows it unless it was the last or the deadline has passed. */
  function Clock(t: Timings, entry: nat, deadline: nat, script: seq<Attempt>, i: nat): nat
    requires i <= |script|
  {
    if i == 0 then entry
    else
      var ended := Clock(t, entry, deadline, script, i - 1) + script[i - 1].duration;
      if i < |script| && ended < deadline then Min(deadline, ended + t.delay) else ended
  }

  ghost predicate AllFailBefore(script: seq<Attempt>, i: nat)
    requires i <= |script|
  {
    forall k :: 0 <= k < i ==> script[k].outcome.Err?
  }

  ghost predicate WithinWindow(t: Timings, script: seq<Attempt>) {
    |script| == t.attempts && forall i :: 0 <= i < |script| && script[i].outcome.Err? ==> script[i].duration <= t.window
  }

  /** Attempt `i` still has time for its scan, a connection and the setup. */
  ghost predicate HasBudget(t: Timings, entry: nat, deadline: nat, script: seq<Attempt>, i: nat)
    requires i <= |script|
  {
    Clock(t, entry, deadline, script, i) + t.window + t.connect + t.setup <= deadline
  }

  /** No attempt is lost, and each one has its full budget. */
  ghost predicate KeepsBudget(t: Timings, entry: nat, deadline: nat, script: seq<Attempt>) {
    forall i :: 0 <= i < |script| && AllFailBefore(script, i) ==> HasBudget(t, entry, deadline, script, i)
  }

  ghost predicate OnSchedule(t: Timings, entry: nat, deadline: nat, script: seq<Attempt>, starts: seq<nat>)
    requires |starts| <= |script|
  {
    forall i {:trigger starts[i]} :: 0 <= i < |starts| ==>
      starts[i] == Clock(t, entry, deadline, script, i) && entry <= starts[i] < deadline
  }

  lemma {:induction false} ClockStep(t: Timings, entry: nat, deadline: nat, script: seq<Attempt>, i: nat, now: nat)
    requires i < |script| && now == Clock(t, entry, deadline, script, i)
    ensures var ended := now + script[i].duration;
            Clock(t, entry, deadline, script, i + 1)
            == if i + 1 < |script| && ended < deadline then Min(deadline, ended + t.delay) else ended
  {
  }

  /** The schedule up to the first success or the deadline, and nothing else. */
  ghost predicate Scheduled(t: Timings, entry: nat, deadline: nat, script: seq<Attempt>,
                               r: Result<Handle, AuraFailureReason>, starts: seq<nat>)
    requires |script| == t.attempts
  {
    && |starts| <= t.attempts && AllFailBefore(script, if starts == [] then 0 else |starts| - 1)
    && OnSchedule(t, entry, deadline, script, starts)
    && r == (if starts == [] then Err(VerifiedAdvertisementNotFound) else script[|starts| - 1].outcome)
    && (|starts| < t.attempts && r.Err? ==> Clock(t, entry, deadline, script, |starts|) >= deadline)
  }

  /** The retry loop.  `starts` are the attempt start times, `wakes` the times at which a delay ended. */
  method RetryConnectAttempts(t: Timings, entry: nat, deadline: nat, script: seq<Attempt>)
    returns (r: Result<Handle, AuraFailureReason>, starts: seq<nat>, wakes: seq<nat>)
    requires |script| == t.attempts
    ensures Scheduled(t, entry, deadline, script, r, starts)
    ensures forall i :: 0 <= i < |wakes| ==> wakes[i] <= deadline
  {
    r, starts, wakes := Err(VerifiedAdvertisementNotFound), [], [];
    var now, index := entry, 0;
    while index < t.attempts
      invariant 0 <= index <= t.attempts && |starts| == index && entry <= now
      invariant now == Clock(t, entry, deadline, script, index) && AllFailBefore(script, index)
      invariant OnSchedule(t, entry, deadline, script, starts)
      invariant forall i :: 0 <= i < |wakes| ==> wakes[i] <= deadline
      invariant if index == 0 then r == Err(VerifiedAdvertisementNotFound) else r == script[index - 1].outcome
    {
      ClockStep(t, entry, deadline, script, index, now);
      if now >= deadline { return; }
      starts := starts + [now];
      r := script[index].outcome;
      if r.Ok? { return; }
      now := now + script[index].duration;
      if index + 1 < t.attempts && now < deadline {
        now := Min(deadline, now + t.delay);
        wakes := wakes + [now];
      }
      index := index + 1;
    }
  }

  /** With the reserve at entry the loop makes every attempt before the deadline, and each one
      still has its scan, connect and setup budget. */
  lemma ReserveKeepsEveryAttempt(t: Timings, entry: nat, deadline: nat, script: seq<Attempt>,
                                          r: Result<Handle, AuraFailureReason>, starts: seq<nat>)
    requires ValidTimings(t) && entry + Reserved(t) <= deadline && WithinWindow(t, script)
    requires Scheduled(t, entry, deadline, script, r, starts)
    ensures r.Err? ==> |starts| == t.attempts
    ensures forall i :: 0 <= i < |starts| ==> starts[i] + t.window + t.connect + t.setup <= deadline
  {
    ReserveIsExact(t, entry, deadline);
    assert KeepsBudget(t, entry, deadline, script);
    forall i | 0 <= i < |starts|
      ensures starts[i] + t.window + t.connect + t.setup <= deadline
    {
      assert AllFailBefore(script, i) && HasBudget(t, entry, deadline, script, i);
    }
    assert |starts| < t.attempts && AllFailBefore(script, |starts|) ==> HasBudget(t, entry, deadline, script, |starts|);
  }

  lemma {:induction false} ClockBound(t: Timings, entry: nat, deadline: nat, script: seq<Attempt>, i: nat)
    requires WithinWindow(t, script) && i < |script| && AllFailBefore(script, i)
    ensures Clock(t, entry, deadline, script, i) <= entry + Slot(t, i)
  {
    if i > 0 {
      ClockBound(t, entry, deadline, script, i - 1);
      SlotStep(t, i - 1);
    }
  }

  /** The slowest admissible run: every attempt fails after its whole window. */
  function SlowScript(t: Timings): seq<Attempt> {
    seq(t.attempts, _ => Attempt(t.window, Err(VerifiedAdvertisementNotFound)))
  }

  lemma {:induction false} SlowClock(t: Timings, entry: nat, deadline: nat, i: nat)
    requires i < t.attempts
    ensures var now := Clock(t, entry, deadline, SlowScript(t), i); now == entry + Slot(t, i) || now >= deadline
  {
    if i > 0 {
      SlowClock(t, entry, deadline, i - 1);
      SlotStep(t, i - 1);
    }
  }

  ghost predicate AlwaysKeepsBudget(t: Timings, entry: nat, deadline: nat) {
    forall script: seq<Attempt> :: WithinWindow(t, script) ==> KeepsBudget(t, entry, deadline, script)
  }

  /** The validated reserve is exact for the loop: every run whose failures stay within a scan
      window keeps every attempt and its full budget if and only if the time left at entry
      covers the reserve. */
  lemma ReserveIsExact(t: Timings, entry: nat, deadline: nat)
    requires ValidTimings(t)
    ensures AlwaysKeepsBudget(t, entry, deadline) <==> entry + Reserved(t) <= deadline
  {
    if entry + Reserved(t) <= deadline {
      forall script: seq<Attempt> | WithinWindow(t, script)
        ensures KeepsBudget(t, entry, deadline, script)
      {
        forall i | 0 <= i < |script| && AllFailBefore(script, i)
          ensures HasBudget(t, entry, deadline, script, i)
        {
          ClockBound(t, entry, deadline, script, i);
          LastSlotLeavesBudget(t, i);
        }
      }
    } else {
      var slow, last := SlowScript(t), t.attempts - 1;
      SlowClock(t, entry, deadline, last);
      LastSlotLeavesBudget(t, last);
      assert WithinWindow(t, slow) && AllFailBefore(slow, last) && !HasBudget(t, entry, deadline, slow, last);
      assert !KeepsBudget(t, entry, deadline, slow);
    }
  }

  /** The stable and wake phases run on the same deadline; what they may use is exactly the slack
      between the total and the reserve, and the default timings have none. */
  lemma EarlierPhasesMayUseTheSlack(t: Timings, used: nat)
    requires ValidTimings(t)
    ensures AlwaysKeepsBudget(t, used, t.total) <==> used <= t.total - Reserved(t)
    ensures t == DEFAULT_TIMINGS ==> (AlwaysKeepsBudget(t, used, t.total) <==> used == 0)
  {
    ReserveIsExact(t, used, t.total);
  }

  // ---------------------------------------------------------------- scan freshness

  type Address = nat
  type Payload = seq<int>

  datatype AddressType = LeRandom | LePublic | BrEdrAddress

  datatype ScanEvent =
    | DeviceRemoved(address: Address)
    | DeviceAdded(address: Address, resolves: bool, subscribes: bool, kind: Option<AddressType>,
                  cached: Option<Option<Payload>>)
    | ServiceDataChanged(address: Address, resolves: bool, kind: Option<AddressType>, data: Option<Payload>)
    | Unrelated
    | AdapterClosed

  const FDDF_PID: Payload := [0x2d, 0x21]

  /** A scan is accepted only for a random LE address, the exact product and the exact identity. */
  predicate VerifiedAdvertisement(kind: AddressType, payload: Payload, identity: Payload) {
    kind == LeRandom && |payload| >= 17 && payload[..2] == FDDF_PID && payload[11..17] == identity
  }

  ghost predicate RemovedBetween(events: seq<ScanEvent>, from: nat, to: nat, address: Address)
    requires to <= |events|
  {
    exists j :: from <= j < to && events[j] == DeviceRemoved(address)
  }

  /** The device was absent from the snapshot, or was removed after it was taken. */
  ghost predicate AppearedSince(known: set<Address>, events: seq<ScanEvent>, i: nat, address: Address)
    requires i <= |events|
  {
    address !in known || RemovedBetween(events, 0, i, address)
  }

  /** A random LE address, the two product bytes and the six identity bytes at their offsets. */
  ghost predicate ExactAdvertisement(kind: AddressType, payload: Payload, identity: Payload) {
    && kind == LeRandom && |payload| >= 17 && payload[0] == 0x2d && payload[1] == 0x21
    && payload[11..17] == identity
  }

  ghost predicate Accepts(event: ScanEvent, identity: Payload) {
    match event
    case DeviceAdded(_, _, _, kind, cached) =>
      kind.Some? && cached.Some? && cached.value.Some?
        && ExactAdvertisement(kind.value, cached.value.value, identity)
    case ServiceDataChanged(_, resolves, kind, data) =>
      resolves && kind.Some? && data.Some? && ExactAdvertisement(kind.value, data.value, identity)
    case _ => false
  }

  /** No evidence among the first events was acceptable: no change of service data, nothing inspected. */
  ghost predicate NoneAccepted(events: seq<ScanEvent>, upTo: nat, inspected: seq<nat>, identity: Payload)
    requires upTo <= |events|
  {
    forall n :: 0 <= n < upTo && (events[n].ServiceDataChanged? || n in inspected) ==> !Accepts(events[n], identity)
  }

  /** The reducer of one piece of evidence. */
  method ReduceAdvertisement(kind: Option<AddressType>, data: Option<Payload>, identity: Payload)
    returns (verified: bool)
    ensures verified <==> kind.Some? && data.Some? && ExactAdvertisement(kind.value, data.value, identity)
  {
    if kind.None? || data.None? { return false; }
    verified := VerifiedAdvertisement(kind.value, data.value, identity);
    if |data.value| >= 17 { assert data.value[..2] == [data.value[0], data.value[1]]; }
  }

  /** Cached data was read only for devices that appeared since the snapshot, and at most
      once per appearance between removals. */
  ghost predicate FreshInspections(known: set<Address>, events: seq<ScanEvent>, upTo: nat, inspected: seq<nat>)
    requires upTo <= |events|
  {
    && (forall k :: 0 <= k < |inspected| ==>
          inspected[k] < upTo && events[inspected[k]].DeviceAdded?
          && AppearedSince(known, events, inspected[k], events[inspected[k]].address))
    && (forall k, l :: 0 <= k < l < |inspected| && events[inspected[k]].address == events[inspected[l]].address ==>
          RemovedBetween(events, inspected[k] + 1, inspected[l], events[inspected[k]].address))
  }

  /** Every inspected device is still subscribed unless it was removed afterwards. */
  ghost predicate Remembered(events: seq<ScanEvent>, upTo: nat, inspected: seq<nat>, subscribed: set<Address>)
    requires upTo <= |events|
  {
    forall k :: 0 <= k < |inspected| && inspected[k] < upTo && events[inspected[k]].DeviceAdded? ==>
      var address := events[inspected[k]].address;
      address in subscribed || RemovedBetween(events, inspected[k] + 1, upTo, address)
  }

  /** Event `j` announced a device that was then subscribed. */
  ghost predicate Announced(events: seq<ScanEvent>, j: nat, address: Address)
    requires j < |events|
  {
    events[j].DeviceAdded? && events[j].address == address && events[j].resolves && events[j].subscribes
  }

  /** Only devices of the snapshot or announced ones stay subscribed, and only until removed. */
  ghost predicate OnlyHeld(atStart: set<Address>, events: seq<ScanEvent>, upTo: nat, subscribed: set<Address>)
    requires upTo <= |events|
  {
    forall a :: a in subscribed ==>
      || (a in atStart && !RemovedBetween(events, 0, upTo, a))
      || exists j :: 0 <= j < upTo && Announced(events, j, a) && !RemovedBetween(events, j + 1, upTo, a)
  }

  /** A first announcement of a device that appeared since the snapshot, with readable data. */
  ghost predicate Due(known: set<Address>, events: seq<ScanEvent>, n: nat)
    requires n < |events|
  {
    && events[n].DeviceAdded? && events[n].resolves && events[n].subscribes && events[n].kind.Some?
      && events[n].cached.Some?
    && AppearedSince(known, events, n, events[n].address)
    && forall j :: 0 <= j < n && Announced(events, j, events[n].address) ==>
        RemovedBetween(events, j + 1, n, events[n].address)
  }

  ghost predicate DueInspected(known: set<Address>, events: seq<ScanEvent>, upTo: nat, inspected: seq<nat>)
    requires upTo <= |events|
  {
    forall n :: 0 <= n < upTo && Due(known, events, n) ==> n in inspected
  }

  /** The snapshot's devices that have not appeared anew. */
  ghost predicate Unseen(known: set<Address>, events: seq<ScanEvent>, upTo: nat, unseen: set<Address>)
    requires upTo <= |events|
  {
    forall a :: a in unseen <==> !AppearedSince(known, events, upTo, a)
  }

  lemma KeepUnseen(known: set<Address>, events: seq<ScanEvent>, i: nat, before: set<Address>, after: set<Address>)
    requires i < |events| && Unseen(known, events, i, before)
    requires after == if events[i].DeviceRemoved? then before - {events[i].address} else before
    ensures Unseen(known, events, i + 1, after)
  {
    forall a
      ensures a in after <==> !AppearedSince(known, events, i + 1, a)
    {
      OneMoreEvent(events, 0, i, a);
    }
  }

  lemma DueIsUnsubscribed(known: set<Address>, atStart: set<Address>, events: seq<ScanEvent>, n: nat,
                          subscribed: set<Address>)
    requires n < |events| && atStart <= known && OnlyHeld(atStart, events, n, subscribed) && Due(known, events, n)
    ensures events[n].address !in subscribed
  {
  }

  lemma KeepHeld(atStart: set<Address>, events: seq<ScanEvent>, i: nat, subscribed: set<Address>, after: set<Address>)
    requires i < |events| && OnlyHeld(atStart, events, i, subscribed)
    requires forall a :: a in after ==> (a in subscribed && events[i] != DeviceRemoved(a)) || Announced(events, i, a)
    ensures OnlyHeld(atStart, events, i + 1, after)
  {
    forall a | a in after
      ensures (a in atStart && !RemovedBetween(events, 0, i + 1, a))
              || exists j :: 0 <= j < i + 1 && Announced(events, j, a) && !RemovedBetween(events, j + 1, i + 1, a)
    {
      if Announced(events, i, a) {
        assert !RemovedBetween(events, i + 1, i + 1, a);
      } else if !(a in atStart && !RemovedBetween(events, 0, i, a)) {
        var j :| 0 <= j < i && Announced(events, j, a) && !RemovedBetween(events, j + 1, i, a);
        OneMoreEvent(events, j + 1, i, a);
      } else {
        OneMoreEvent(events, 0, i, a);
      }
    }
  }

  lemma OneMoreEvent(events: seq<ScanEvent>, from: nat, i: nat, address: Address)
    requires from <= i < |events|
    ensures RemovedBetween(events, from, i + 1, address) <==>
            RemovedBetween(events, from, i, address) || events[i] == DeviceRemoved(address)
  {
  }

  lemma KeepInspections(known: set<Address>, events: seq<ScanEvent>, i: nat, inspected: seq<nat>,
                        subscribed: set<Address>, after: set<Address>)
    requires i < |events|
    requires FreshInspections(known, events, i, inspected) && Remembered(events, i, inspected, subscribed)
    requires forall a :: a in subscribed ==> a in after || events[i] == DeviceRemoved(a)
    ensures FreshInspections(known, events, i + 1, inspected) && Remembered(events, i + 1, inspected, after)
  {
    forall k | 0 <= k < |inspected|
      ensures var a := events[inspected[k]].address; a in after || RemovedBetween(events, inspected[k] + 1, i + 1, a)
    {
      OneMoreEvent(events, inspected[k] + 1, i, events[inspected[k]].address);
    }
  }

  lemma AddInspection(known: set<Address>, events: seq<ScanEvent>, i: nat, inspected: seq<nat>,
                      subscribed: set<Address>)
    requires i < |events| && events[i].DeviceAdded?
    requires FreshInspections(known, events, i, inspected) && Remembered(events, i, inspected, subscribed)
    requires events[i].address !in subscribed && AppearedSince(known, events, i, events[i].address)
    ensures FreshInspections(known, events, i + 1, inspected + [i])
    ensures Remembered(events, i + 1, inspected + [i], subscribed + {events[i].address})
  {
    KeepInspections(known, events, i, inspected, subscribed, subscribed + {events[i].address});
  }

  /** The state of a scan after `upTo` events. */
  datatype Scan = Scan(preexisting: set<Address>, subscribed: set<Address>, inspected: seq<nat>)

  ghost predicate Scanned(known: set<Address>, atStart: set<Address>, events: seq<ScanEvent>, upTo: nat, scan: Scan)
    requires upTo <= |events|
  {
    && Unseen(known, events, upTo, scan.preexisting)
    && FreshInspections(known, events, upTo, scan.inspected)
      && Remembered(events, upTo, scan.inspected, scan.subscribed)
    && OnlyHeld(atStart, events, upTo, scan.subscribed)
    && DueInspected(known, events, upTo, scan.inspected)
  }

  predicate Subscribes(event: ScanEvent, scan: Scan) {
    event.DeviceAdded? && event.address !in scan.subscribed && event.resolves && event.subscribes
  }

  predicate Inspects(event: ScanEvent, scan: Scan) {
    Subscribes(event, scan) && event.address !in scan.preexisting && event.kind.Some? && event.cached.Some?
  }

  function Scanning(event: ScanEvent, i: nat, scan: Scan): Scan {
    Scan(if event.DeviceRemoved? then scan.preexisting - {event.address} else scan.preexisting,
         if event.DeviceRemoved? then scan.subscribed - {event.address}
         else if Subscribes(event, scan) then scan.subscribed + {event.address} else scan.subscribed,
         if Inspects(event, scan) then scan.inspected + [i] else scan.inspected)
  }

  lemma ScanStep(known: set<Address>, atStart: set<Address>, events: seq<ScanEvent>, i: nat, scan: Scan)
    requires i < |events| && atStart <= known && Scanned(known, atStart, events, i, scan)
    ensures Scanned(known, atStart, events, i + 1, Scanning(events[i], i, scan))
  {
    var after := Scanning(events[i], i, scan);
    KeepUnseen(known, events, i, scan.preexisting, after.preexisting);
    KeepHeld(atStart, events, i, scan.subscribed, after.subscribed);
    if Inspects(events[i], scan) {
      AddInspection(known, events, i, scan.inspected, scan.subscribed);
    } else {
      KeepInspections(known, events, i, scan.inspected, scan.subscribed, after.subscribed);
    }
    if Due(known, events, i) { DueIsUnsubscribed(known, atStart, events, i, scan.subscribed); }
  }

  /** One scan over every event sequence.  `inspected` lists the events at which a
      device's cached ServiceData was read, `seen` counts the events consumed. */
  method ScanOnce(known: set<Address>, subscribedAtStart: set<Address>, identity: Payload, events: seq<ScanEvent>)
    returns (r: Result<Option<Address>, AuraFailureReason>, inspected: seq<nat>, seen: nat)
    requires subscribedAtStart <= known
    ensures seen <= |events| && FreshInspections(known, events, seen, inspected)
    ensures r.Ok? && r.value.Some? ==>
              && seen > 0 && Accepts(events[seen - 1], identity) && events[seen - 1].address == r.value.value
              && (events[seen - 1].DeviceAdded? ==> seen - 1 in inspected)
    ensures r.Ok? && r.value.None? ==> seen == |events| && NoneAccepted(events, seen, inspected, identity)
    ensures r.Err? ==> r == Err(DiscoveryUnavailable) && seen > 0 && events[seen - 1].AdapterClosed?
    ensures NoneAccepted(events, if seen == 0 then 0 else seen - 1, inspected, identity)
    // Nothing that is due is passed over.
    ensures DueInspected(known, events, seen, inspected)
  {
    var preexisting, subscribed := known, subscribedAtStart;
    inspected, seen := [], 0;
    while seen < |events|
      invariant seen <= |events|
      invariant Scanned(known, subscribedAtStart, events, seen, Scan(preexisting, subscribed, inspected))
      invariant NoneAccepted(events, seen, inspected, identity)
    {
      var event, i := events[seen], seen;
      ghost var before := Scan(preexisting, subscribed, inspected);
      ghost var after := Scanning(event, i, before);
      ScanStep(known, subscribedAtStart, events, i, before);
      AcceptedStep(events, i, inspected, after.inspected, identity);
      seen := i + 1;
      if event.AdapterClosed? {
        assert after == before;
        r := Err(DiscoveryUnavailable);
        return;
      }
      var evidence := false;
      match event {
        case AdapterClosed =>
        case Unrelated =>
        case DeviceRemoved(address) =>
          preexisting := preexisting - {address};
          subscribed := subscribed - {address};
        case DeviceAdded(address, resolves, subscribes, kind, cached) =>
          // An object of the snapshot may only be subscribed; a duplicate announcement
          // of an object already subscribed authorizes nothing.
          if address !in subscribed && resolves && subscribes {
            subscribed := subscribed + {address};
            if address !in preexisting && kind.Some? && cached.Some? {
              inspected := inspected + [i];
              evidence := ReduceAdvertisement(kind, cached.value, identity);
            }
          }
        case ServiceDataChanged(address, resolves, kind, data) =>
          evidence := ReduceAdvertisement(kind, data, identity);
          evidence := evidence && resolves;
      }
      assert after == Scan(preexisting, subscribed, inspected);
      if evidence {
        r := Ok(Some(event.address));
        return;
      }
    }
    r := Ok(None);
  }

  lemma AcceptedStep(events: seq<ScanEvent>, i: nat, inspected: seq<nat>, after: seq<nat>, identity: Payload)
    requires i < |events| && NoneAccepted(events, i, inspected, identity)
             && (after == inspected || after == inspected + [i])
    ensures NoneAccepted(events, i, after, identity)
    ensures (events[i].ServiceDataChanged? || i in after ==> !Accepts(events[i], identity)) ==>
              NoneAccepted(events, i + 1, after, identity)
  {
  }
}
