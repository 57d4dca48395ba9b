/** The connection loop: bytes arrive in arbitrary chunks, at most one request is ever served. */
module WebServer {
  import opened Wrappers
  import opened Web

  const READ_CHUNK_BYTES: nat := 2048

  /** What one turn of the loop meets.  `Read(n)` delivers at most n bytes of what is left of the
      stream; at its end it delivers nothing.  `Retry` is an interrupted or timed-out read. */
  datatype ReadEvent = ShuttingDown | DeadlineElapsed | Read(count: nat) | Retry | Failed

  datatype ReadOutcome = Complete(request: string) | Rejected(request: string) | Closed

  const ZERO: string := [0 as char]

  function Min(a: nat, b: nat): nat { if a < b then a else b }

  ghost predicate Flowing(schedule: seq<ReadEvent>) {
    forall i :: 0 <= i < |schedule| ==> schedule[i].Read? && schedule[i].count > 0
  }

  /** What an outcome says about the bytes taken from the stream so far. */
  ghost predicate Explains(wire: string, consumed: nat, queued: bool, outcome: ReadOutcome) {
    && consumed <= |wire|
    && match outcome
       case Complete(request) => !queued && request == wire[..consumed] && FrameOf(request).Complete?
       case Rejected(request) =>
         || (request == wire[..consumed] && FrameOf(request).Rejected?)
         || (queued && request == wire[..consumed] + ZERO && FrameOf(wire[..consumed]).Complete?)
       case Closed => true
  }

  /** Reads one request.  Whatever the chunking, a completed read is the stream's only complete
      prefix, the buffer stays bounded, and a stream that is one request and keeps flowing is read whole. */
  method ReadOneRequest(wire: string, schedule: seq<ReadEvent>, queued: bool)
    returns (outcome: ReadOutcome, ghost consumed: nat)
    ensures Explains(wire, consumed, queued, outcome)
    ensures consumed <= MAX_REQUEST_BYTES + 1
    ensures outcome.Closed? && ShuttingDown !in schedule ==> FrameOf(wire[..consumed]).Incomplete?
    ensures FrameOf(wire).Complete? && Flowing(schedule) && |schedule| >= |wire| ==>
              && consumed == |wire|
              && outcome == if queued then ReadOutcome.Rejected(wire + ZERO) else ReadOutcome.Complete(wire)
  {
    var request, pos, turn := "", 0, 0;
    while true
      invariant 0 <= pos <= |wire| && turn <= |schedule| && pos <= MAX_REQUEST_BYTES + 1
      invariant request == wire[..pos]
      invariant Flowing(schedule) ==> pos >= Min(turn, |wire|)
      decreases |schedule| - turn
    {
      consumed := pos;
      assert wire[..|wire|] == wire;
      if FrameOf(wire).Complete? { CompletePrefixIsUnique(wire, |wire|, pos); }
      var event := if turn < |schedule| then schedule[turn] else DeadlineElapsed;
      if event.ShuttingDown? { return Closed, consumed; }
      var frame := RequestFrame(request);
      match frame {
        case Complete =>
          if queued { return ReadOutcome.Rejected(request + ZERO), consumed; }
          return ReadOutcome.Complete(request), consumed;
        case Rejected => return ReadOutcome.Rejected(request), consumed;
        case Incomplete =>
      }
      // An incomplete buffer always leaves room for at least one more byte.
      assert |request| <= MAX_REQUEST_BYTES;
      var limit := Min(MAX_REQUEST_BYTES + 1 - |request|, READ_CHUNK_BYTES);
      match event {
        case DeadlineElapsed => return Closed, consumed;
        case Failed => return Closed, consumed;
        case Retry =>
        case Read(count) =>
          var got := Min(Min(count, limit), |wire| - pos);
          if got == 0 { return Closed, consumed; }
          request := request + wire[pos..pos + got];
          pos := pos + got;
      }
      turn := turn + 1;
    }
  }

  /** Two readings of the same stream that both complete, however chunked, agree. */
  lemma ChunkingDoesNotMatter(wire: string, m: nat, n: nat, a: ReadOutcome, b: ReadOutcome)
    requires Explains(wire, m, false, a) && Explains(wire, n, false, b)
    ensures a.Complete? && b.Complete? ==> a == b
    ensures FrameOf(wire).Complete? ==> a == ReadOutcome.Complete(wire) || a == Closed
    ensures a.Complete? && b.Rejected? ==> |a.request| < |b.request| && a.request <= wire && b.request <= wire
  {
    assert wire[..|wire|] == wire;
    if a.Complete? { CompletePrefixIsUnique(wire, m, n); }
    if FrameOf(wire).Complete? { CompletePrefixIsUnique(wire, |wire|, m); }
  }

  /** One connection: the actor is reached only by the parsed form of the stream's complete prefix. */
  method HandleConnection(wire: string, schedule: seq<ReadEvent>, queued: bool)
    returns (reached: Option<ParsedRequest>, ghost consumed: nat)
    ensures consumed <= |wire|
    ensures reached.Some? ==>
              !queued && FrameOf(wire[..consumed]).Complete? && Parse(wire[..consumed]) == Ok(reached.value)
    ensures queued ==> reached.None?
    ensures FrameOf(wire).Complete? && Flowing(schedule) && |schedule| >= |wire| && !queued ==>
              (reached.Some? <==> Parse(wire).Ok?) && (reached.Some? ==> Parse(wire) == Ok(reached.value))
  {
    var outcome;
    outcome, consumed := ReadOneRequest(wire, schedule, queued);
    if outcome.Closed? { return None, consumed; }
    var parsed := ParseRequest(outcome.request);
    RejectedNeverParses(outcome.request, ZERO);
    RejectedNeverParses(wire[..consumed], ZERO);
    reached := match parsed
      case Ok(request) => Some(request)
      case Err(_) => None;
  }
}
