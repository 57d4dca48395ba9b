/**
 The GENA observer of broadcaster results: event-key succession, the bounded
 callback loop, the subscription slot, and the JSON limits of an event body.
 */
module Gena {
  import opened Wrappers
  import opened Ascii
  import World

  datatype Action = StartBroadcast | StopBroadcast

  datatype Failure =
    | InvalidConfiguration | RouteUnavailable | ListenerUnavailable | SubscriptionUnavailable
    | InvalidSubscription | CallbackTimedOut | InvalidCallback | BusinessRejected | CleanupFailed

  const MAX_CALLBACKS: nat := 64
  const U32_MAX: nat := 0xffff_ffff

  // ---------------------------------------------------------------- callbacks

  datatype CallbackOutcome = Confirmed | Rejected | Pending

  /** A parsed callback; `body` is what the XML and JSON parsers found in it. */
  datatype Callback = Callback(method_: string, target: string, headers: map<string, string>,
                               mediaType: Option<string>, body: Result<Option<int>, ()>)

  datatype Subscription = Subscription(sid: string, path: string, last: Option<nat>)

  predicate HeaderIs(c: Callback, name: string, expected: string) {
    name in c.headers && EqIgnoreCase(c.headers[name], expected)
  }

  function SequenceText(c: Callback): Option<nat> {
    if "seq" in c.headers && c.headers["seq"] != "" && AllDigits(c.headers["seq"])
       && DecimalValue(c.headers["seq"]) <= U32_MAX
    then Some(DecimalValue(c.headers["seq"])) else None
  }

  predicate SequenceIsNext(previous: Option<nat>, next: nat) {
    match previous
    case None => true
    case Some(p) => if p == U32_MAX then next == 1 else next == p + 1
  }

  function ReduceAction(action: Action, code: Option<int>): CallbackOutcome {
    if (action.StartBroadcast? && code == Some(33)) || (action.StopBroadcast? && code == Some(34)) then Confirmed
    else if (action.StartBroadcast? && code == Some(31)) || (action.StopBroadcast? && code == Some(32)) then Rejected
    else Pending
  }

  /** The callbacks of one subscription: its own path and SID, the event headers, an XML type if
      any, the next event key, and a body that parses. */
  ghost predicate Acceptable(c: Callback, s: Subscription) {
    && c.method_ == "NOTIFY" && c.target == s.path
    && "sid" in c.headers && c.headers["sid"] == s.sid
    && "nt" in c.headers && Lower(c.headers["nt"]) == "upnp:event"
    && "nts" in c.headers && Lower(c.headers["nts"]) == "upnp:propchange"
    && (c.mediaType.Some? ==> Lower(c.mediaType.value) == "text/xml" || Lower(c.mediaType.value) == "application/xml")
    && SequenceText(c).Some?
    && (s.last.Some? ==> SequenceText(c).value == if s.last.value == 0xffff_ffff then 1 else s.last.value + 1)
    && c.body.Ok?
  }

  lemma LowerNames()
    ensures Lower("upnp:event") == "upnp:event" && Lower("upnp:propchange") == "upnp:propchange"
    ensures Lower("text/xml") == "text/xml" && Lower("application/xml") == "application/xml"
  {
  }

  /** The code that confirms an action: 33 for a start, 34 for a stop. */
  ghost predicate IsSuccess(action: Action, code: Option<int>) {
    code == Some(if action.StartBroadcast? then 33 else 34)
  }

  /** The code that refuses an action: 31 for a start, 32 for a stop. */
  ghost predicate IsRefusal(action: Action, code: Option<int>) {
    code == Some(if action.StartBroadcast? then 31 else 32)
  }

  /** What a callback code means for the action. */
  ghost predicate Means(action: Action, code: Option<int>, outcome: CallbackOutcome) {
    && (outcome == Confirmed <==> IsSuccess(action, code))
    && (outcome == Rejected <==> IsRefusal(action, code))
  }

  /** Accepts a callback and advances the event key, or rejects it and leaves the key alone. */
  method ValidateCallback(c: Callback, s: Subscription, action: Action)
    returns (r: Result<CallbackOutcome, Failure>, last: Option<nat>)
    ensures r.Ok? <==> Acceptable(c, s)
    ensures r.Ok? ==> Means(action, c.body.value, r.value) && last == SequenceText(c)
    ensures r.Err? ==> r.error == InvalidCallback && last == s.last
  {
    LowerNames();
    last := s.last;
    r := Err(InvalidCallback);
    if c.method_ != "NOTIFY" || c.target != s.path { return; }
    if "sid" !in c.headers || c.headers["sid"] != s.sid { return; }
    if !HeaderIs(c, "nt", "upnp:event") || !HeaderIs(c, "nts", "upnp:propchange") { return; }
    if c.mediaType.Some? && !EqIgnoreCase(c.mediaType.value, "text/xml")
       && !EqIgnoreCase(c.mediaType.value, "application/xml") { return; }
    var key := SequenceText(c);
    if key.None? || !SequenceIsNext(s.last, key.value) { return; }
    if c.body.Err? { return; }
    last := key;
    r := Ok(ReduceAction(action, c.body.value));
  }

  /** What the loop needs to know of a validated callback. */
  method Judge(c: Callback, s: Subscription, action: Action)
    returns (r: Result<CallbackOutcome, Failure>, key: nat, code: Option<int>)
    ensures r.Ok? <==> Acceptable(c, s)
    ensures r.Ok? ==> SequenceText(c) == Some(key) && SequenceIsNext(s.last, key) && c.body == Ok(code)
    ensures r.Ok? ==> Means(action, code, r.value)
    ensures r.Err? ==> r.error == InvalidCallback
  {
    var last;
    r, last := ValidateCallback(c, s, action);
    key, code := 0, None;
    if r.Ok? { key, code := last.value, c.body.value; }
  }

  // ---------------------------------------------------------------- observation loop

  datatype Arrival = WouldBlock | AcceptFailed | ForeignPeer | Unusable | Delivered(callback: Callback)

  function LastKey(before: Option<nat>, keys: seq<nat>): Option<nat> {
    if keys == [] then before else Some(keys[|keys| - 1])
  }

  ghost predicate Succession(before: Option<nat>, keys: seq<nat>) {
    forall i :: 0 <= i < |keys| ==> SequenceIsNext(LastKey(before, keys[..i]), keys[i])
  }

  /** Key `keys[i]` and code `codes[i]` were read from the callback at `at[i]`. */
  ghost predicate ReadFrom(arrivals: seq<Arrival>, at: seq<nat>, keys: seq<nat>, codes: seq<Option<int>>) {
    && |at| == |keys| == |codes|
    && (forall i :: 0 <= i < |at| ==>
          && at[i] < |arrivals| && arrivals[at[i]].Delivered?
          && SequenceText(arrivals[at[i]].callback) == Some(keys[i])
          && arrivals[at[i]].callback.body == Ok(codes[i]))
    && (forall i, j :: 0 <= i < j < |at| ==> at[i] < at[j])
  }

  lemma AppendKey(before: Option<nat>, keys: seq<nat>, key: nat)
    requires Succession(before, keys) && SequenceIsNext(LastKey(before, keys), key)
    ensures Succession(before, keys + [key])
  {
    var longer := keys + [key];
    forall i | 0 <= i < |longer|
      ensures SequenceIsNext(LastKey(before, longer[..i]), longer[i])
    {
      assert longer[..i] == keys[..i];
      assert i == |keys| ==> keys[..i] == keys;
    }
  }

  lemma AppendRead(arrivals: seq<Arrival>, at: seq<nat>, keys: seq<nat>, codes: seq<Option<int>>, here: nat, key: nat,
                   code: Option<int>)
    requires ReadFrom(arrivals, at, keys, codes)
    requires here < |arrivals| && (forall i :: 0 <= i < |at| ==> at[i] < here)
    requires arrivals[here].Delivered? && SequenceText(arrivals[here].callback) == Some(key)
    requires arrivals[here].callback.body == Ok(code)
    ensures ReadFrom(arrivals, at + [here], keys + [key], codes + [code])
  {
  }

  /** Every callback before `upTo` that was delivered is among those read. */
  ghost predicate NoneSkipped(arrivals: seq<Arrival>, at: seq<nat>, upTo: nat) {
    forall n :: 0 <= n < upTo && n < |arrivals| && arrivals[n].Delivered? ==> n in at
  }

  /** No code so far is one of the action's own two. */
  ghost predicate AllPending(action: Action, codes: seq<Option<int>>) {
    forall k :: 0 <= k < |codes| ==> !IsSuccess(action, codes[k]) && !IsRefusal(action, codes[k])
  }

  /** All but the last code are not about the action; success means exactly that the last one
      confirms it, a business rejection that the last one refuses it. */
  ghost predicate Decided(action: Action, codes: seq<Option<int>>, r: Result<(), Failure>) {
    && (codes != [] ==> AllPending(action, codes[..|codes| - 1]))
    && (r.Ok? <==> codes != [] && IsSuccess(action, codes[|codes| - 1]))
    && (r == Err(BusinessRejected) <==> codes != [] && IsRefusal(action, codes[|codes| - 1]))
  }

  lemma Decides(action: Action, codes: seq<Option<int>>, code: Option<int>, r: Result<(), Failure>)
    requires AllPending(action, codes)
    ensures r.Err? && r.error != BusinessRejected ==> Decided(action, codes, r)
    ensures r == Ok(()) && IsSuccess(action, code) ==> Decided(action, codes + [code], r)
    ensures r == Err(BusinessRejected) && IsRefusal(action, code) ==> Decided(action, codes + [code], r)
    ensures !IsSuccess(action, code) && !IsRefusal(action, code) ==> AllPending(action, codes + [code])
  {
    assert (codes + [code])[..|codes|] == codes;
  }

  /** Connections taken from the listener, of which at most 64 are looked at. */
  function Connections(arrivals: seq<Arrival>): nat {
    if arrivals == [] then 0
    else
      var last := arrivals[|arrivals| - 1];
      Connections(arrivals[..|arrivals| - 1]) + (if last.ForeignPeer? || last.Delivered? then 1 else 0)
  }

  lemma {:induction false} ConnectionsNext(arrivals: seq<Arrival>, i: nat)
    requires i < |arrivals|
    ensures Connections(arrivals[..i + 1])
            == Connections(arrivals[..i]) + (if arrivals[i].ForeignPeer? || arrivals[i].Delivered? then 1 else 0)
  {
    assert arrivals[..i + 1][..i] == arrivals[..i];
  }

  /** Why the loop ended after `consumed` arrivals: the deadline, a broken listener, a callback that
      is not acceptable, too many connections, or a decisive callback. */
  ghost predicate Excused(arrivals: seq<Arrival>, consumed: nat, after: Subscription, r: Result<(), Failure>) {
    && consumed <= |arrivals|
    && match r
       case Ok(_) => consumed < |arrivals| && arrivals[consumed].Delivered?
       case Err(BusinessRejected) => consumed < |arrivals| && arrivals[consumed].Delivered?
       case Err(CallbackTimedOut) => consumed == |arrivals|
       case Err(ListenerUnavailable) => consumed < |arrivals| && arrivals[consumed].AcceptFailed?
       case Err(InvalidCallback) =>
         || Connections(arrivals[..consumed]) == 64
         || (consumed < |arrivals| && arrivals[consumed].Unusable?)
         || (consumed < |arrivals| && arrivals[consumed].Delivered? && !Acceptable(arrivals[consumed].callback, after))
       case _ => false
  }

  /** What the loop has read of the first `upTo` arrivals. */
  ghost predicate Gathered(s: Subscription, arrivals: seq<Arrival>, upTo: nat, after: Subscription, keys: seq<nat>,
                           codes: seq<Option<int>>, at: seq<nat>)
  {
    && ReadFrom(arrivals, at, keys, codes) && (forall k :: 0 <= k < |at| ==> at[k] < upTo)
    && Succession(s.last, keys) && after == s.(last := LastKey(s.last, keys))
    && NoneSkipped(arrivals, at, upTo)
  }

  lemma AppendBoth(s: Subscription, arrivals: seq<Arrival>, here: nat, after: Subscription, at: seq<nat>,
                   keys: seq<nat>, codes: seq<Option<int>>, key: nat, code: Option<int>)
    requires Gathered(s, arrivals, here, after, keys, codes, at)
    requires SequenceIsNext(after.last, key) && here < |arrivals|
    requires arrivals[here].Delivered? && SequenceText(arrivals[here].callback) == Some(key)
    requires arrivals[here].callback.body == Ok(code)
    ensures Gathered(s, arrivals, here + 1, after.(last := Some(key)), keys + [key], codes + [code], at + [here])
  {
    AppendKey(s.last, keys, key);
    AppendRead(arrivals, at, keys, codes, here, key, code);
  }

  /** One delivered callback: refused and nothing read, or read and either pending or decisive. */
  method TakeCallback(s: Subscription, action: Action, arrivals: seq<Arrival>, here: nat, after: Subscription,
                      keys: seq<nat>, codes: seq<Option<int>>, ghost at: seq<nat>)
    returns (decision: Option<Result<(), Failure>>, after': Subscription, keys': seq<nat>, codes': seq<Option<int>>,
             ghost at': seq<nat>)
    requires here < |arrivals| && arrivals[here].Delivered?
    requires Gathered(s, arrivals, here, after, keys, codes, at) && AllPending(action, codes)
    ensures decision == Some(Err(InvalidCallback)) ==> (after', keys', codes', at') == (after, keys, codes, at)
    ensures decision != Some(Err(InvalidCallback)) ==>
              Gathered(s, arrivals, here + 1, after', keys', codes', at') && |codes'| == |codes| + 1
                && at' == at + [here]
    ensures decision.Some? ==> Excused(arrivals, here, after, decision.value)
    ensures if decision.None? then AllPending(action, codes') else Decided(action, codes', decision.value)
  {
    decision, after', keys', codes', at' := Some(Err(InvalidCallback)), after, keys, codes, at;
    var outcome, key, code := Judge(arrivals[here].callback, after, action);
    Decides(action, codes, code, Err(InvalidCallback));
    if outcome.Err? { return; }
    AppendBoth(s, arrivals, here, after, at, keys, codes, key, code);
    after', keys', codes', at' := after.(last := Some(key)), keys + [key], codes + [code], at + [here];
    Decides(action, codes, code, if outcome.value.Confirmed? then Ok(()) else Err(BusinessRejected));
    decision := match outcome.value
      case Confirmed => Some(Ok(()))
      case Rejected => Some(Err(BusinessRejected))
      case Pending => None;
  }

  /** Waits for the action's own result among at most 64 connections.  The end of
      `arrivals` is the deadline; `consumed` arrivals precede the end. */
  method ObserveUntil(s: Subscription, action: Action, arrivals: seq<Arrival>)
    returns (r: Result<(), Failure>, after: Subscription, keys: seq<nat>, codes: seq<Option<int>>, ghost at: seq<nat>,
             ghost consumed: nat)
    ensures ReadFrom(arrivals, at, keys, codes)
    ensures Succession(s.last, keys) && after == s.(last := LastKey(s.last, keys))
    ensures Decided(action, codes, r) && |codes| <= MAX_CALLBACKS
    ensures Excused(arrivals, consumed, after, r)
    ensures NoneSkipped(arrivals, at, if r.Ok? then consumed + 1 else consumed)
  {
    after, keys, codes, at := s, [], [], [];
    var accepted, i := 0, 0;
    while accepted < MAX_CALLBACKS
      invariant i <= |arrivals| && |codes| <= accepted <= MAX_CALLBACKS
      invariant accepted == Connections(arrivals[..i])
      invariant Gathered(s, arrivals, i, after, keys, codes, at) && AllPending(action, codes)
      decreases |arrivals| - i
    {
      consumed := i;
      Decides(action, codes, None, Err(CallbackTimedOut));
      Decides(action, codes, None, Err(ListenerUnavailable));
      Decides(action, codes, None, Err(InvalidCallback));
      if i == |arrivals| { return Err(CallbackTimedOut), after, keys, codes, at, consumed; }
      ConnectionsNext(arrivals, i);
      match arrivals[i] {
        case WouldBlock =>
        case AcceptFailed => return Err(ListenerUnavailable), after, keys, codes, at, consumed;
        case ForeignPeer => accepted := accepted + 1;
        case Unusable => return Err(InvalidCallback), after, keys, codes, at, consumed;
        case Delivered(_) =>
          accepted := accepted + 1;
          var decision;
          decision, after, keys, codes, at := TakeCallback(s, action, arrivals, i, after, keys, codes, at);
          if decision.Some? { return decision.value, after, keys, codes, at, consumed; }
      }
      i := i + 1;
    }
    Decides(action, codes, None, Err(InvalidCallback));
    r, consumed := Err(InvalidCallback), i;
  }

  /** Closed form of the succession: after a first key of at least one, the i-th accepted
      key counts up and rolls over past zero; zero never comes back. */
  lemma {:induction false} KeyClosedForm(before: Option<nat>, keys: seq<nat>, i: nat)
    requires Succession(before, keys) && i < |keys|
    requires 1 <= keys[0] <= U32_MAX
    ensures keys[i] == (keys[0] - 1 + i) % U32_MAX + 1
    ensures 1 <= keys[i] <= U32_MAX
  {
    if i > 0 {
      KeyClosedForm(before, keys, i - 1);
      assert LastKey(before, keys[..i]) == Some(keys[i - 1]);
      assert SequenceIsNext(Some(keys[i - 1]), keys[i]);
    }
  }

  /** A first key of zero is followed by one, two, ... with the same roll-over. */
  lemma KeysAfterZero(before: Option<nat>, keys: seq<nat>, i: nat)
    requires Succession(before, keys) && 1 <= i < |keys| && keys[0] == 0
    ensures keys[i] == (i - 1) % U32_MAX + 1
  {
    var tail := keys[1..];
    assert LastKey(before, keys[..1]) == Some(keys[0]);
    assert SequenceIsNext(Some(keys[0]), keys[1]);
    forall k | 0 <= k < |tail|
      ensures SequenceIsNext(LastKey(Some(keys[0]), tail[..k]), tail[k])
    {
      assert keys[..k + 1][k] == keys[k];
      assert LastKey(before, keys[..k + 1]) == LastKey(Some(keys[0]), tail[..k]);
    }
    KeyClosedForm(Some(keys[0]), tail, i - 1);
  }

  // ---------------------------------------------------------------- subscription slot

  type Event = World.Event

  function Codes(codes: seq<Option<int>>): (r: seq<Event>)
    ensures |r| == |codes| && forall i :: 0 <= i < |r| ==> r[i] == World.Code(codes[i])
  {
    seq(|codes|, i requires 0 <= i < |codes| => World.Code(codes[i]))
  }

  /** The codes end with the action's own confirmation; none before it was about the action. */
  ghost predicate Confirms(action: Action, codes: seq<Option<int>>) {
    codes != [] && IsSuccess(action, codes[|codes| - 1]) && AllPending(action, codes[..|codes| - 1])
  }

  class Observer {
    var subscription: Option<Subscription>
    ghost const log: World.Log

    constructor (ghost log: World.Log)
      ensures subscription.None? && this.log == log
    {
      subscription := None;
      this.log := log;
    }

    /** Tears down any earlier subscription, then subscribes; every step may fail. */
    method Arm() returns (r: Result<(), Failure>, ghost events: seq<Event>)
      modifies this, log
      ensures r.Ok? <==> subscription.Some?
      ensures r.Ok? <==> World.Fault !in events
      ensures old(subscription).None? ==> events == if r.Ok? then [World.Subscribed] else [World.Fault]
      ensures log.events == old(log.events) + events && World.Silent(events)
    {
      r, events := Cancel();
      if r.Err? { return; }
      r := Subscribe();
      events := events + [if r.Ok? then World.Subscribed else World.Fault];
    }

    method Subscribe() returns (r: Result<(), Failure>)
      requires subscription.None?
      modifies this, log
      ensures r.Ok? <==> subscription.Some?
      ensures log.events == old(log.events) + [if r.Ok? then World.Subscribed else World.Fault]
    {
      var routed: bool, listening: bool, answered: bool := *, *, *;
      var status: nat, sid: string, path: string, sidValid: bool, timeoutValid: bool := *, *, *, *, *;
      r := if !routed then Err(RouteUnavailable)
           else if !listening then Err(ListenerUnavailable)
           else if !answered then Err(SubscriptionUnavailable)
           else if status != 200 || !sidValid || !timeoutValid then Err(InvalidSubscription)
           else Ok(());
      if r.Ok? { subscription := Some(Subscription(sid, path, None)); }
      log.events := log.events + [if r.Ok? then World.Subscribed else World.Fault];
    }

    /** Observes one result, then always releases the subscription. */
    method Observe(action: Action)
      returns (r: Result<(), Failure>, ghost events: seq<Event>, ghost codes: seq<Option<int>>)
      modifies this, log
      ensures subscription.None?
      ensures r.Ok? ==> events == Codes(codes) + [World.Unsubscribed] && Confirms(action, codes)
      ensures r.Ok? <==> World.Fault !in events
      ensures log.events == old(log.events) + events && World.Silent(events)
    {
      codes := [];
      if subscription.None? {
        log.events := log.events + [World.Fault];
        return Err(ListenerUnavailable), [World.Fault], codes;
      }
      var observed;
      ghost var read;
      observed, read, codes := ReadCallbacks(action);
      var cleanup, released := Cancel();
      World.Assoc(old(log.events), read, released);
      events := read + released;
      r := if observed.Err? then observed else if cleanup.Err? then Err(CleanupFailed) else Ok(());
    }

    /** Reads callbacks from the listener until one decides. */
    method ReadCallbacks(action: Action)
      returns (r: Result<(), Failure>, ghost events: seq<Event>, ghost codes: seq<Option<int>>)
      requires subscription.Some?
      modifies this, log
      ensures subscription.Some? && (r.Ok? ==> Confirms(action, codes))
      ensures events == Codes(codes) + World.Faults(r.Ok?) && log.events == old(log.events) + events
    {
      var arrivals: seq<Arrival> := *;
      var observed, after, keys, found, at, consumed := ObserveUntil(subscription.value, action, arrivals);
      r, subscription, codes := observed, Some(after), found;
      events := Codes(codes) + World.Faults(r.Ok?);
      log.events := log.events + events;
    }

    /** Empties the slot first, so nothing stays exposed when the request fails. */
    method Cancel() returns (r: Result<(), Failure>, ghost events: seq<Event>)
      modifies this, log
      ensures subscription.None?
      ensures events == if old(subscription).None? then [] else if r.Ok? then [World.Unsubscribed] else [World.Fault]
      ensures old(subscription).None? ==> r.Ok?
      ensures log.events == old(log.events) + events
    {
      events := [];
      if subscription.None? { return Ok(()), events; }
      subscription := None;
      var answered: bool, status: nat := *, *;
      r := if !answered || status != 200 then Err(CleanupFailed) else Ok(());
      events := [if r.Ok? then World.Unsubscribed else World.Fault];
      log.events := log.events + events;
    }
  }
}
