/**
 Whole runs of the service: actions, status reads, I/O failures, process and host crashes at
 any step, and reopening.  The question is whether an ordinary action can begin a role write
 while an older one is unresolved.
 */
module Runs {
  import opened Wrappers
  import opened World
  import opened Journal
  import Acquisition
  import Backend
  import Controller
  import NativeCore
  import Pairing

  type Action = NativeCore.Action

  /** `debt`: some earlier action may have changed a device role and nobody has resolved it.
      It is history only; the program does not see it. */
  datatype Sys = Sys(process: Option<Controller.View>, disk: Disk, debt: bool)

  /** A step of a run.  An interrupted one stops after `at` events of its log. */
  datatype Step =
    | Act(action: Action, post: Controller.View, report: Controller.Report, trace: Controller.Trace)
    | ActCut(action: Action, post: Controller.View, report: Controller.Report, trace: Controller.Trace, at: nat,
             host: bool)
    | ReadStatus(post: Controller.View)
    | TearDown(post: Controller.View)
    | Crash(host: bool)
    | Open(result: Option<JournalState>, trail: seq<Disk>, fault: bool)
    | OpenCut(result: Option<JournalState>, trail: seq<Disk>, fault: bool, last: Disk, at: nat, host: bool)

  function Prefix(events: seq<Event>, n: nat): seq<Event> { if n <= |events| then events[..n] else events }

  /** What really happened in a step: its log, or the part of it before the crash. */
  function Executed(step: Step): seq<Event> {
    match step
    case Act(_, _, _, t) => Controller.Flat(t)
    case ActCut(_, _, _, t, at, _) => Prefix(Controller.Flat(t), at)
    case Open(_, trail, fault) => Opening(trail, fault)
    case OpenCut(_, trail, fault, _, at, _) => Prefix(Opening(trail, fault), at)
    case _ => []
  }

  function Opening(trail: seq<Disk>, fault: bool): seq<Event> { Disks(trail) + Faults(!fault) }

  predicate Ordinary(step: Step) {
    (step.Act? || step.ActCut?) && !step.action.RecoverStop?
  }

  predicate Unlinked(e: Event) { e.DiskIs? && e.disk.Dir? && e.disk.marker.now.None? }

  /** The membership was read as ready at `k`, and no role was written since. */
  ghost predicate SettledAt(events: seq<Event>, k: int) {
    0 <= k < |events| && ReadyRead(events[k]) && forall m :: k < m < |events| ==> !events[m].Write?
  }

  /** A log resolves what was uncertain when it ends with the removal of the pending record after
      a ready membership read that follows every write. */
  ghost predicate Resolves(events: seq<Event>) {
    events != [] && Unlinked(events[|events| - 1]) && exists k :: SettledAt(events, k)
  }

  predicate LeavesDoubt(step: Step) {
    || HasWrite(Executed(step))
    || (step.Act?
        && (step.report.outcome == Controller.OutcomeUnknown || step.report.outcome == Controller.PostconditionFailed))
  }

  ghost function DebtAfter(debt: bool, step: Step): bool {
    !Resolves(Executed(step)) && (debt || LeavesDoubt(step))
  }

  ghost predicate Lost(disk: Disk, host: bool, found: Disk) { if host then HostCrash(disk, found) else found == disk }

  /** A process that just opened its journal. */
  function Fresh(state: JournalState): Controller.View {
    Controller.View(Controller.Unknown, state.Pending?, if state.Pending? then 1 else 0, 0, None, state,
                    NativeCore.View(Backend.Offline, None, None))
  }

  ghost predicate Next(s: Sys, step: Step, s': Sys) {
    && s'.debt == DebtAfter(s.debt, step)
    && match step
       case Act(action, post, report, t) =>
         s.process.Some? && s'.process == Some(post)
         && Controller.Mutated(s.process.value, s.disk, action, post, s'.disk, report, t)
       case ActCut(action, post, report, t, at, host) =>
         s.process.Some? && s'.process.None? && at <= |Controller.Flat(t)|
         && (exists after :: Controller.Mutated(s.process.value, s.disk, action, post, after, report, t))
         && Lost(DiskAfter(s.disk, Executed(step)), host, s'.disk)
       case ReadStatus(post) =>
         s.process.Some? && s'.process == Some(post) && s'.disk == s.disk && Controller.Observed(s.process.value, post)
       case TearDown(post) =>
         s.process.Some? && s'.process == Some(post) && s'.disk == s.disk
         && post == s.process.value.(core := s.process.value.core.(bearer := post.core.bearer))
           && Controller.Coupled(post)
       case Crash(host) =>
         s'.process.None? && Lost(s.disk, host, s'.disk)
       case Open(result, trail, fault) =>
         s.process.None? && Opened(s.disk, s'.disk, result, trail, fault)
         && s'.process == (if result.Some? then Some(Fresh(result.value)) else None)
       case OpenCut(result, trail, fault, last, at, host) =>
         s.process.None? && s'.process.None? && at <= |Opening(trail, fault)|
         && Opened(s.disk, last, result, trail, fault)
         && Lost(DiskAfter(s.disk, Executed(step)), host, s'.disk)
  }

  /** The disk a step's host crash hits, if it has one. */
  function HitByHostCrash(s: Sys, step: Step): Option<Disk> {
    match step
    case ActCut(_, _, _, _, _, true) => Some(DiskAfter(s.disk, Executed(step)))
    case Crash(true) => Some(s.disk)
    case OpenCut(_, _, _, _, _, true) => Some(DiskAfter(s.disk, Executed(step)))
    case _ => None
  }

  /** No host crash hits a journal directory whose own entry is not yet durable while a debt is open. */
  ghost predicate DirectoryHolds(s: Sys, step: Step) {
    var hit := HitByHostCrash(s, step);
    hit.Some? && hit.value.Dir? && DebtAfter(s.debt, step) ==> hit.value.anchored
  }

  /** The claim about one step. */
  ghost predicate Safe(s: Sys, step: Step) {
    Ordinary(step) && HasWrite(Executed(step)) ==> !s.debt
  }

  ghost predicate Inv(s: Sys) {
    && WellFormed(s.disk)
    && (s.debt ==> Armed(s.disk))
    && (s.process.Some? ==>
          s.disk.Dir? && Controller.Coupled(s.process.value) && (s.debt ==> s.process.value.unresolved))
  }

  // ---------------------------------------------------------------- reading a log

  lemma PrefixOfConcat(a: seq<Event>, b: seq<Event>, n: nat)
    requires n <= |a| + |b|
    ensures Prefix(a + b, n) == if n <= |a| then a[..n] else a + b[..n - |a|]
  {
  }

  function DiskAt(disk: Disk, trail: seq<Disk>, n: nat): Disk
    requires n <= |trail|
  {
    if n == 0 then disk else trail[n - 1]
  }

  lemma DiskAfterTrail(disk: Disk, trail: seq<Disk>, n: nat)
    requires n <= |trail|
    ensures DiskAfter(disk, Disks(trail)[..n]) == DiskAt(disk, trail, n)
    ensures !HasWrite(Disks(trail)[..n])
  {
  }

  /** Every prefix of an opening shows the old disk or one of its trail, and resolves nothing. */
  lemma OpeningPrefix(disk: Disk, trail: seq<Disk>, fault: bool, at: nat)
    requires at <= |Opening(trail, fault)|
    ensures var found := DiskAfter(disk, Prefix(Opening(trail, fault), at)); found == disk || found in trail
  {
    PrefixOfConcat(Disks(trail), Faults(!fault), at);
    if at <= |trail| { DiskAfterTrail(disk, trail, at); } else { FaultKeepsDisk(disk, trail); }
  }

  /** A fault behind a trail leaves its last disk. */
  lemma FaultKeepsDisk(disk: Disk, trail: seq<Disk>)
    ensures DiskAfter(disk, Disks(trail) + [Fault]) == DiskAt(disk, trail, |trail|)
  {
    DiskAfterConcat(disk, Disks(trail), [Fault]);
    assert Disks(trail)[..|trail|] == Disks(trail);
    DiskAfterTrail(disk, trail, |trail|);
  }

  /** Where in an action's log a position lies. */
  datatype Place = InReadings | InMark(disks: nat) | InScript(events: nat) | InCheck(checks: nat) | InClear(disks: nat)
    | AtFault

  function PlaceOf(t: Controller.Trace, at: nat): (place: Place)
    ensures place.InMark? ==> 0 < place.disks <= |t.mark|
    ensures place.InScript? ==> 0 < place.events <= |t.script|
    ensures place.InCheck? ==> 0 < place.checks <= |t.check|
    ensures place.InClear? ==> 0 < place.disks <= |t.clear|
    ensures place.AtFault? && at <= |Controller.Flat(t)| ==> t.stuck && at == |Controller.Flat(t)|
  {
    var p := |t.preflight|;
    var m := p + |t.mark|;
    var s := m + |t.script|;
    var c := s + |t.check|;
    if at <= p then InReadings
    else if at <= m then InMark(at - p)
    else if at <= s then InScript(at - m)
    else if at <= c then InCheck(at - s)
    else if at <= c + |t.clear| then InClear(at - c)
    else AtFault
  }

  /** The executed prefix, part by part. */
  function PrefixAt(t: Controller.Trace, at: nat): seq<Event>
    requires at <= |Controller.Flat(t)|
  {
    match PlaceOf(t, at)
    case InReadings => t.preflight[..at]
    case InMark(n) => t.preflight + Disks(t.mark)[..n]
    case InScript(n) => t.preflight + (Disks(t.mark) + t.script[..n])
    case InCheck(n) => t.preflight + (Disks(t.mark) + (t.script + t.check[..n]))
    case InClear(n) => t.preflight + (Disks(t.mark) + (t.script + (t.check + Disks(t.clear)[..n])))
    case AtFault => Controller.Flat(t)
  }

  lemma PrefixByPlace(t: Controller.Trace, at: nat)
    requires at <= |Controller.Flat(t)|
    ensures Prefix(Controller.Flat(t), at) == PrefixAt(t, at)
  {
    var end := Disks(t.clear) + Faults(!t.stuck);
    var c := |t.preflight| + |t.mark| + |t.script| + |t.check|;
    if at > c + |t.clear| {
      assert at == |Controller.Flat(t)|;
    } else {
      PrefixOfFive(t.preflight, Disks(t.mark), t.script, t.check, end, at);
      if at > c { PrefixOfConcat(Disks(t.clear), Faults(!t.stuck), at - c); }
    }
  }

  lemma PrefixOfFive(a: seq<Event>, b: seq<Event>, c: seq<Event>, d: seq<Event>, e: seq<Event>, at: nat)
    requires at <= |a + (b + (c + (d + e)))|
    ensures var ab := |a| + |b|; var abc := ab + |c|; var abcd := abc + |d|;
            Prefix(a + (b + (c + (d + e))), at) == if at <= |a| then a[..at]
                                                   else if at <= ab then a + b[..at - |a|]
                                                   else if at <= abc then a + (b + c[..at - ab])
                                                   else if at <= abcd then a + (b + (c + d[..at - abc]))
                                                   else a + (b + (c + (d + e[..at - abcd])))
  {
    var x, y := |a|, |a| + |b|;
    var z := y + |c|;
    PrefixOfConcat(a, b + (c + (d + e)), at);
    if at > x { PrefixOfConcat(b, c + (d + e), at - x); }
    if at > y { PrefixOfConcat(c, d + e, at - y); }
    if at > z { PrefixOfConcat(d, e, at - z); }
  }

  /** One event of an action's log. */
  lemma FlatAt(t: Controller.Trace, i: nat)
    requires i < |Controller.Flat(t)|
    ensures var p := |t.preflight|; var m := p + |t.mark|; var s := m + |t.script|; var c := s + |t.check|;
            && |Controller.Flat(t)| == c + |t.clear| + (if t.stuck then 1 else 0)
            && Controller.Flat(t)[i] == if i < p then t.preflight[i]
                                        else if i < m then DiskIs(t.mark[i - p])
                                        else if i < s then t.script[i - m]
                                        else if i < c then t.check[i - s]
                                        else if i < c + |t.clear| then DiskIs(t.clear[i - c])
                                        else Fault
  {
  }

  /** The disk and the writes of an executed prefix. */
  ghost predicate Reads(disk: Disk, t: Controller.Trace, place: Place, events: seq<Event>)
    requires place.InMark? ==> 0 < place.disks <= |t.mark|
    requires place.InClear? ==> 0 < place.disks <= |t.clear|
  {
    && DiskAfter(disk, events) == PlaceDisk(disk, t, place)
    && (HasWrite(events) ==> t.marked && HasWrite(t.script) && !place.InReadings? && !place.InMark?)
  }

  lemma ReadPrefix(disk: Disk, action: Action, after: Disk, t: Controller.Trace, at: nat)
    requires Controller.Phases(disk, action, after, t) && at <= |Controller.Flat(t)|
    ensures Reads(disk, t, PlaceOf(t, at), Prefix(Controller.Flat(t), at))
  {
    PrefixByPlace(t, at);
    ReadPlace(disk, t, at);
  }

  lemma ReadPlace(disk: Disk, t: Controller.Trace, at: nat)
    requires at <= |Controller.Flat(t)|
    requires Controller.OfReads(t.preflight) && OfBackend(t.script) && Controller.OfReads(t.check)
    requires !t.marked ==> !HasWrite(t.script)
    ensures Reads(disk, t, PlaceOf(t, at), PrefixAt(t, at))
  {
    match PlaceOf(t, at)
    case InReadings => DiskUntouched(disk, t.preflight[..at]);
    case InMark(n) => ReadMark(disk, t, n);
    case InScript(n) => ReadScript(disk, t, n);
    case InCheck(n) => ReadCheck(disk, t, n);
    case InClear(n) =>
      ReadRest(disk, t, t.script + (t.check + Disks(t.clear)[..n]));
      ReadClear(Controller.MarkedDisk(disk, t), t, n);
    case AtFault => ReadFault(disk, t);
  }

  lemma ReadFault(disk: Disk, t: Controller.Trace)
    requires t.stuck && Controller.OfReads(t.preflight) && OfBackend(t.script) && Controller.OfReads(t.check)
    ensures DiskAfter(disk, Controller.Flat(t)) == PlaceDisk(disk, t, AtFault)
    ensures HasWrite(Controller.Flat(t)) ==> HasWrite(t.script)
  {
    var marked, clears := Controller.MarkedDisk(disk, t), Disks(t.clear);
    ReadRest(disk, t, t.script + (t.check + (clears + [Fault])));
    DiskAfterConcat(marked, t.script, t.check + (clears + [Fault]));
    DiskAfterConcat(DiskAfter(marked, t.script), t.check, clears + [Fault]);
    DiskUntouched(marked, t.script);
    DiskUntouched(marked, t.check);
    FaultKeepsDisk(marked, t.clear);
    WritesConcat(t.script, t.check + (clears + [Fault]));
    WritesConcat(t.check, clears + [Fault]);
    WritesConcat(clears, [Fault]);
  }

  lemma ReadScript(disk: Disk, t: Controller.Trace, n: nat)
    requires Controller.OfReads(t.preflight) && OfBackend(t.script) && n <= |t.script|
    ensures var events := t.preflight + (Disks(t.mark) + t.script[..n]);
            DiskAfter(disk, events) == Controller.MarkedDisk(disk, t) && (HasWrite(events) ==> HasWrite(t.script))
  {
    ReadRest(disk, t, t.script[..n]);
    DiskUntouched(Controller.MarkedDisk(disk, t), t.script[..n]);
  }

  lemma ReadCheck(disk: Disk, t: Controller.Trace, n: nat)
    requires Controller.OfReads(t.preflight) && OfBackend(t.script) && Controller.OfReads(t.check) && n <= |t.check|
    ensures var events := t.preflight + (Disks(t.mark) + (t.script + t.check[..n]));
            DiskAfter(disk, events) == Controller.MarkedDisk(disk, t) && (HasWrite(events) ==> HasWrite(t.script))
  {
    ReadRest(disk, t, t.script + t.check[..n]);
    DiskUntouched(Controller.MarkedDisk(disk, t), t.script + t.check[..n]);
    WritesConcat(t.script, t.check[..n]);
  }

  function PlaceDisk(disk: Disk, t: Controller.Trace, place: Place): Disk
    requires place.InMark? ==> 0 < place.disks <= |t.mark|
    requires place.InClear? ==> 0 < place.disks <= |t.clear|
  {
    match place
    case InReadings => disk
    case InMark(n) => t.mark[n - 1]
    case InClear(n) => t.clear[n - 1]
    case AtFault => DiskAt(Controller.MarkedDisk(disk, t), t.clear, |t.clear|)
    case _ => Controller.MarkedDisk(disk, t)
  }

  lemma ReadMark(disk: Disk, t: Controller.Trace, n: nat)
    requires Controller.OfReads(t.preflight) && 0 < n <= |t.mark|
    ensures var events := t.preflight + Disks(t.mark)[..n];
            DiskAfter(disk, events) == t.mark[n - 1] && !HasWrite(events)
  {
    DiskAfterConcat(disk, t.preflight, Disks(t.mark)[..n]);
    DiskAfterTrail(DiskAfter(disk, t.preflight), t.mark, n);
    WritesConcat(t.preflight, Disks(t.mark)[..n]);
  }

  lemma ReadRest(disk: Disk, t: Controller.Trace, rest: seq<Event>)
    requires Controller.OfReads(t.preflight)
    ensures var events := t.preflight + (Disks(t.mark) + rest);
            && DiskAfter(disk, events) == DiskAfter(Controller.MarkedDisk(disk, t), rest)
            && (HasWrite(events) <==> HasWrite(rest))
  {
    var marks := Disks(t.mark);
    assert marks[..|t.mark|] == marks;
    DiskUntouched(disk, t.preflight);
    DiskAfterTrail(disk, t.mark, |t.mark|);
    DiskAfterConcat(disk, t.preflight, marks + rest);
    DiskAfterConcat(disk, marks, rest);
    WritesConcat(t.preflight, marks + rest);
    WritesConcat(marks, rest);
  }

  lemma ReadClear(disk: Disk, t: Controller.Trace, n: nat)
    requires OfBackend(t.script) && Controller.OfReads(t.check) && 0 < n <= |t.clear|
    ensures var events := t.script + (t.check + Disks(t.clear)[..n]);
            DiskAfter(disk, events) == t.clear[n - 1] && (HasWrite(events) ==> HasWrite(t.script))
  {
    var clears := Disks(t.clear)[..n];
    DiskAfterConcat(disk, t.script, t.check + clears);
    DiskAfterConcat(DiskAfter(disk, t.script), t.check, clears);
    DiskAfterTrail(DiskAfter(DiskAfter(disk, t.script), t.check), t.clear, n);
    WritesConcat(t.script, t.check + clears);
    WritesConcat(t.check, clears);
  }

  /** A cleared action that was accepted resolves; its log ends with the unlink. */
  lemma AcceptedResolves(disk: Disk, action: Action, after: Disk, t: Controller.Trace)
    requires Controller.Phases(disk, action, after, t) && t.cleared && Controller.Rechecked(t.check)
    ensures Resolves(Controller.Flat(t))
  {
    var events, k := Controller.Flat(t), |t.preflight| + |t.mark| + |t.script|;
    FlatAt(t, k);
    FlatAt(t, |events| - 1);
    forall m | k < m < |events| ensures !events[m].Write? { FlatAt(t, m); }
    assert SettledAt(events, k);
  }

  /** Until the final unlink no prefix of an action's log ends without the marker. */
  lemma UnlinkedOnlyAtEnd(disk: Disk, action: Action, after: Disk, t: Controller.Trace, at: nat)
    requires Controller.Phases(disk, action, after, t) && 0 < at <= |Controller.Flat(t)|
    requires Unlinked(Controller.Flat(t)[at - 1])
    ensures t.cleared && at == |Controller.Flat(t)|
  {
    FlatAt(t, at - 1);
  }

  // ---------------------------------------------------------------- one step

  lemma LostKeeps(disk: Disk, host: bool, found: Disk, debt: bool)
    requires WellFormed(disk) && Lost(disk, host, found) && (debt ==> Armed(disk))
    requires host && debt ==> disk.anchored
    ensures WellFormed(found) && (debt ==> Armed(found))
  {
    if host { HostCrashKeepsWellFormed(disk, found); }
  }

  lemma MarkedDiskKeeps(disk: Disk, action: Action, after: Disk, t: Controller.Trace)
    requires WellFormed(disk) && Controller.Phases(disk, action, after, t)
    ensures forall i :: 0 <= i < |t.mark| ==> WellFormed(t.mark[i]) && (Armed(disk) ==> Armed(t.mark[i]))
    ensures var marked := Controller.MarkedDisk(disk, t);
            WellFormed(marked) && (Armed(disk) ==> Armed(marked)) && (t.marked ==> MarkerArmed(marked))
  {
    forall i | 0 <= i < |t.mark|
      ensures WellFormed(t.mark[i]) && (Armed(disk) ==> Armed(t.mark[i]))
    {
      assert MarkKeeps(disk, t.mark[i]);
    }
    if t.marked {
      MarkIsDurable(disk, Controller.JournalAction(action), Controller.MarkedDisk(disk, t), t.mark);
      ArmedAfterMark(disk, action, t);
    }
  }

  lemma ArmedAfterMark(disk: Disk, action: Action, t: Controller.Trace)
    requires disk.Dir? && t.marked
    requires Marked(disk, Controller.JournalAction(action), Controller.MarkedDisk(disk, t), true, t.mark)
    ensures MarkerArmed(Controller.MarkedDisk(disk, t))
  {
    assert IsPendingFile(Controller.MarkedDisk(disk, t).marker.now);
  }

  /** The interrupted action: whatever prefix of its log was executed, the record it owes is there. */
  lemma {:induction false} CutKeeps(disk: Disk, action: Action, after: Disk, t: Controller.Trace, at: nat, debt: bool)
    requires WellFormed(disk) && Controller.Phases(disk, action, after, t) && at <= |Controller.Flat(t)|
    requires debt && !HasWrite(Prefix(Controller.Flat(t), at)) ==> Armed(disk)
    requires debt && t.cleared ==> at < |Controller.Flat(t)|
    ensures var found := DiskAfter(disk, Prefix(Controller.Flat(t), at));
            WellFormed(found) && (debt ==> Armed(found))
  {
    ReadPrefix(disk, action, after, t, at);
    PlaceKeeps(disk, action, after, t, PlaceOf(t, at), debt);
  }

  lemma {:induction false} PlaceKeeps(disk: Disk, action: Action, after: Disk, t: Controller.Trace, place: Place,
                                      debt: bool)
    requires WellFormed(disk) && Controller.Phases(disk, action, after, t)
    requires place.InMark? ==> 0 < place.disks <= |t.mark|
    requires place.InClear? ==> 0 < place.disks <= |t.clear|
    requires debt && (place.InReadings? || place.InMark? || !t.marked) ==> Armed(disk)
    requires place.InCheck? || place.InClear? || place.AtFault? ==> t.marked
    requires debt && t.cleared ==> place != InClear(|t.clear|)
    requires place.AtFault? ==> t.stuck
    ensures WellFormed(PlaceDisk(disk, t, place)) && (debt ==> Armed(PlaceDisk(disk, t, place)))
  {
    MarkedDiskKeeps(disk, action, after, t);
    if place.InClear? && (t.cleared ==> place.disks < |t.clear|) {
      assert ClearKeeps(Controller.MarkedDisk(disk, t), t.clear[place.disks - 1]);
    }
    if place.AtFault? && t.clear != [] {
      assert ClearKeeps(Controller.MarkedDisk(disk, t), t.clear[|t.clear| - 1]);
    }
  }

  lemma FinishedKeeps(pre: Controller.View, disk: Disk, action: Action, post: Controller.View, after: Disk,
                      report: Controller.Report, t: Controller.Trace, debt: bool)
    requires WellFormed(disk) && (debt ==> Armed(disk) && pre.unresolved)
    requires Controller.Mutated(pre, disk, action, post, after, report, t)
    ensures WellFormed(after)
    ensures DebtAfter(debt, Act(action, post, report, t)) ==> Armed(after) && post.unresolved
  {
    MarkedDiskKeeps(disk, action, after, t);
    if t.clear != [] && !t.cleared {
      assert ClearKeeps(Controller.MarkedDisk(disk, t), t.clear[|t.clear| - 1]);
    }
    if t.cleared && Controller.Rechecked(t.check) { AcceptedResolves(disk, action, after, t); }
    var n := |Controller.Flat(t)|;
    assert Prefix(Controller.Flat(t), n) == Controller.Flat(t);
    ReadPrefix(disk, action, after, t, n);
  }

  /** An interrupted action leaves no debt behind once its record is gone. */
  lemma CutDebt(pre: Controller.View, disk: Disk, action: Action, post: Controller.View, after: Disk,
                report: Controller.Report, t: Controller.Trace, at: nat, host: bool, debt: bool)
    requires debt ==> pre.unresolved
    requires Controller.Mutated(pre, disk, action, post, after, report, t) && at <= |Controller.Flat(t)|
    requires DebtAfter(debt, ActCut(action, post, report, t, at, host)) && t.cleared
    ensures at < |Controller.Flat(t)|
  {
    if at == |Controller.Flat(t)| {
      assert Prefix(Controller.Flat(t), at) == Controller.Flat(t);
      if Controller.Rechecked(t.check) { AcceptedResolves(disk, action, after, t); }
      ReadPrefix(disk, action, after, t, at);
    }
  }

  /** An ordinary action that finds a debt does nothing at all. */
  lemma OrdinaryIsSafe(pre: Controller.View, disk: Disk, action: Action, post: Controller.View, after: Disk,
                       report: Controller.Report, t: Controller.Trace, at: nat)
    requires Controller.Mutated(pre, disk, action, post, after, report, t)
    requires pre.unresolved && !action.RecoverStop?
    ensures Controller.Flat(t) == [] && !HasWrite(Prefix(Controller.Flat(t), at))
  {
    assert Disks([]) == [];
  }

  lemma StepKeepsInv(s: Sys, step: Step, s': Sys)
    requires Inv(s) && Next(s, step, s') && DirectoryHolds(s, step)
    ensures Inv(s') && Safe(s, step)
  {
    match step
    case Act(action, post, report, t) =>
      FinishedKeeps(s.process.value, s.disk, action, post, s'.disk, report, t, s.debt);
      if s.debt && !action.RecoverStop? {
        OrdinaryIsSafe(s.process.value, s.disk, action, post, s'.disk, report, t, |Controller.Flat(t)|);
      }
    case ActCut(action, post, report, t, at, host) =>
      CutStepKeepsInv(s, step, s');
    case ReadStatus(_) =>
    case TearDown(_) =>
    case Crash(host) => LostKeeps(s.disk, host, s'.disk, s'.debt);
    case Open(result, trail, fault) =>
      OpeningIsSilent(step);
    case OpenCut(result, trail, fault, last, at, host) =>
      OpeningIsSilent(step);
      OpeningPrefix(s.disk, trail, fault, at);
      LostKeeps(DiskAfter(s.disk, Executed(step)), host, s'.disk, s'.debt);
  }

  /** Opening the journal writes no role and resolves nothing. */
  lemma OpeningIsSilent(step: Step)
    ensures !step.Act? && !step.ActCut? ==> !HasWrite(Executed(step)) && !Resolves(Executed(step))
  {
  }

  lemma CutStepKeepsInv(s: Sys, step: Step, s': Sys)
    requires Inv(s) && Next(s, step, s') && DirectoryHolds(s, step) && step.ActCut?
    ensures Inv(s') && Safe(s, step)
  {
    var pre, t := s.process.value, step.trace;
    var after :| Controller.Mutated(pre, s.disk, step.action, step.post, after, step.report, t);
    if s'.debt && t.cleared {
      CutDebt(pre, s.disk, step.action, step.post, after, step.report, t, step.at, step.host, s.debt);
    }
    CutKeeps(s.disk, step.action, after, t, step.at, s'.debt);
    LostKeeps(DiskAfter(s.disk, Executed(step)), step.host, s'.disk, s'.debt);
    if s.debt && !step.action.RecoverStop? {
      OrdinaryIsSafe(pre, s.disk, step.action, step.post, after, step.report, t, step.at);
    }
  }

  // ---------------------------------------------------------------- runs

  ghost predicate Run(states: seq<Sys>, steps: seq<Step>) {
    && |states| == |steps| + 1
    && forall i :: 0 <= i < |steps| ==> Next(states[i], steps[i], states[i + 1])
  }

  ghost predicate Sheltered(states: seq<Sys>, steps: seq<Step>)
    requires |states| == |steps| + 1
  {
    forall i :: 0 <= i < |steps| ==> DirectoryHolds(states[i], steps[i])
  }

  /** Over every run, no ordinary action begins a role write while an earlier one is unresolved. */
  lemma {:induction false} NoWriteWhileUnresolved(states: seq<Sys>, steps: seq<Step>, i: nat)
    requires Run(states, steps) && Sheltered(states, steps) && Inv(states[0]) && i <= |steps|
    ensures Inv(states[i])
    ensures forall k :: 0 <= k < i ==> Safe(states[k], steps[k])
    decreases i
  {
    if i > 0 {
      NoWriteWhileUnresolved(states, steps, i - 1);
      StepKeepsInv(states[i - 1], steps[i - 1], states[i]);
    }
  }

  /** Opening fails for a failed call only, and whoever opens while a debt is open finds the record. */
  lemma {:induction false} ReopensInDoubt(states: seq<Sys>, steps: seq<Step>, i: nat)
    requires Run(states, steps) && Sheltered(states, steps) && Inv(states[0]) && i < |steps|
    requires steps[i].Open? && !steps[i].fault
    ensures steps[i].result.Some?
    ensures states[i].debt ==> steps[i].result.value.Pending? && states[i + 1].process.value.unresolved
  {
    NoWriteWhileUnresolved(states, steps, i);
    assert Next(states[i], steps[i], states[i + 1]);
    ReopenWellFormed(states[i].disk);
  }

  predicate Recovery(step: Step) { (step.Act? || step.ActCut?) && step.action.RecoverStop? }

  /** A recovery that paid: accepted, its whole script executed, the membership read as ready after
      every write, and the record removed. */
  ghost predicate Paid(lifecycle: Backend.Lifecycle, step: Step) {
    && Recovery(step) && Controller.Successful(step.report.outcome)
    && Controller.Rechecked(step.trace.check) && step.trace.cleared
    && Executed(step) == Controller.Flat(step.trace)
    && Devices(step.trace.script) == NativeCore.Script(step.action, lifecycle)
  }

  lemma RecoveryPays(pre: Controller.View, disk: Disk, post: Controller.View, after: Disk, report: Controller.Report,
                     t: Controller.Trace, action: Action, at: nat)
    requires pre.unresolved && Controller.Mutated(pre, disk, action, post, after, report, t)
    requires at <= |Controller.Flat(t)| && Resolves(Prefix(Controller.Flat(t), at))
    ensures action.RecoverStop? && t.cleared && at == |Controller.Flat(t)|
    ensures Controller.Successful(report.outcome) && Controller.Rechecked(t.check)
    ensures Devices(t.script) == NativeCore.Script(action, pre.core.lifecycle)
  {
    if !action.RecoverStop? { OrdinaryIsSafe(pre, disk, action, post, after, report, t, at); }
    UnlinkedOnlyAtEnd(disk, action, after, t, at);
  }

  /** A debt is paid by one kind of step only. */
  lemma OnlyRecoveryPays(s: Sys, step: Step, s': Sys)
    requires Inv(s) && Next(s, step, s') && s.debt && !s'.debt
    ensures s.process.Some? && Paid(s.process.value.core.lifecycle, step)
  {
    OpeningIsSilent(step);
    assert Resolves(Executed(step));
    if step.Act? { ActPays(s, step, s'); } else { CutPays(s, step, s'); }
  }

  lemma ActPays(s: Sys, step: Step, s': Sys)
    requires Inv(s) && Next(s, step, s') && s.debt && step.Act? && Resolves(Executed(step))
    ensures Paid(s.process.value.core.lifecycle, step)
  {
    var t := step.trace;
    assert Prefix(Controller.Flat(t), |Controller.Flat(t)|) == Controller.Flat(t);
    StepPays(s.process.value, s.disk, s'.disk, step, |Controller.Flat(t)|);
  }

  lemma CutPays(s: Sys, step: Step, s': Sys)
    requires Inv(s) && Next(s, step, s') && s.debt && step.ActCut? && Resolves(Executed(step))
    ensures Paid(s.process.value.core.lifecycle, step)
  {
    var pre := s.process.value;
    var after :| Controller.Mutated(pre, s.disk, step.action, step.post, after, step.report, step.trace);
    StepPays(pre, s.disk, after, step, step.at);
  }

  lemma StepPays(pre: Controller.View, disk: Disk, after: Disk, step: Step, at: nat)
    requires step.Act? || step.ActCut?
    requires pre.unresolved && Controller.Mutated(pre, disk, step.action, step.post, after, step.report, step.trace)
    requires at <= |Controller.Flat(step.trace)| && Executed(step) == Prefix(Controller.Flat(step.trace), at)
    requires Resolves(Executed(step))
    ensures Paid(pre.core.lifecycle, step)
  {
    RecoveryPays(pre, disk, step.post, after, step.report, step.trace, step.action, at);
  }

  lemma {:induction false} OnlyRecoveryResolves(states: seq<Sys>, steps: seq<Step>, i: nat)
    requires Run(states, steps) && Sheltered(states, steps) && Inv(states[0]) && i < |steps|
    requires states[i].debt && !states[i + 1].debt
    ensures states[i].process.Some? && Paid(states[i].process.value.core.lifecycle, steps[i])
  {
    NoWriteWhileUnresolved(states, steps, i);
    OnlyRecoveryPays(states[i], steps[i], states[i + 1]);
  }

  lemma QuietStep(s: Sys, step: Step, s': Sys)
    requires Inv(s) && Next(s, step, s') && DirectoryHolds(s, step) && s.debt && !Recovery(step)
    ensures Inv(s') && s'.debt && !HasWrite(Executed(step))
  {
    if !s'.debt { OnlyRecoveryPays(s, step, s'); }
    StepKeepsInv(s, step, s');
  }

  lemma {:induction false} DebtStep(states: seq<Sys>, steps: seq<Step>, k: nat)
    requires Run(states, steps) && Sheltered(states, steps) && k < |steps|
    requires Inv(states[k]) && states[k].debt && !Recovery(steps[k])
    ensures Inv(states[k + 1]) && states[k + 1].debt && !HasWrite(Executed(steps[k]))
  {
    QuietStep(states[k], steps[k], states[k + 1]);
  }

  ghost predicate Indebted(s: Sys) { Inv(s) && s.debt }

  lemma {:induction false} IndebtedChain(states: seq<Sys>, i: nat, j: nat)
    requires i <= j < |states| && Indebted(states[i])
    requires forall k :: i <= k < j && Indebted(states[k]) ==> Indebted(states[k + 1])
    ensures Indebted(states[j])
    decreases j
  {
    if i < j { IndebtedChain(states, i, j - 1); }
  }

  lemma {:induction false} DebtPersists(states: seq<Sys>, steps: seq<Step>, i: nat, j: nat)
    requires Run(states, steps) && Sheltered(states, steps) && i <= j <= |steps| && Inv(states[i])
    requires states[i].debt && forall k :: i <= k < j ==> !Recovery(steps[k])
    ensures states[j].debt && Inv(states[j])
  {
    forall k | i <= k < j && Indebted(states[k])
      ensures Indebted(states[k + 1])
    {
      DebtStep(states, steps, k);
    }
    IndebtedChain(states, i, j);
  }

  /** From an unresolved write on, nothing at all is written until someone asks for recovery,
      across any number of crashes and restarts. */
  lemma {:induction false} QuietUntilRecovery(states: seq<Sys>, steps: seq<Step>, i: nat, j: nat)
    requires Run(states, steps) && Sheltered(states, steps) && Inv(states[0]) && i <= j < |steps|
    requires states[i].debt
    requires forall k :: i <= k <= j ==> !Recovery(steps[k])
    ensures states[j + 1].debt && !HasWrite(Executed(steps[j]))
  {
    NoWriteWhileUnresolved(states, steps, i);
    DebtPersists(states, steps, i, j);
    DebtStep(states, steps, j);
  }

  /** What holds in every state whatever the crashes did, sheltered or not. */
  ghost predicate Sane(s: Sys) {
    WellFormed(s.disk) && (s.process.Some? ==> s.disk.Dir? && Controller.Coupled(s.process.value))
  }

  lemma StepKeepsSane(s: Sys, step: Step, s': Sys)
    requires Sane(s) && Next(s, step, s')
    ensures Sane(s')
  {
    match step
    case Act(action, post, report, t) =>
      FinishedKeeps(s.process.value, s.disk, action, post, s'.disk, report, t, false);
    case ActCut(action, post, report, t, at, host) =>
      var after :| Controller.Mutated(s.process.value, s.disk, action, post, after, report, t);
      CutKeeps(s.disk, action, after, t, at, false);
      LostKeeps(DiskAfter(s.disk, Executed(step)), host, s'.disk, false);
    case Crash(host) => LostKeeps(s.disk, host, s'.disk, false);
    case OpenCut(result, trail, fault, last, at, host) =>
      OpeningPrefix(s.disk, trail, fault, at);
      LostKeeps(DiskAfter(s.disk, Executed(step)), host, s'.disk, false);
    case _ =>
  }

  lemma {:induction false} SaneChain(states: seq<Sys>, i: nat)
    requires i < |states| && Sane(states[0])
    requires forall k :: 0 <= k < i && Sane(states[k]) ==> Sane(states[k + 1])
    ensures forall k :: 0 <= k <= i ==> Sane(states[k])
  {
    if i > 0 {
      SaneChain(states, i - 1);
      assert Sane(states[i - 1]) && states[i - 1 + 1] == states[i];
    }
  }

  lemma {:induction false} AlwaysSane(states: seq<Sys>, steps: seq<Step>, i: nat)
    requires Run(states, steps) && Sane(states[0]) && i <= |steps|
    ensures forall k :: 0 <= k <= i ==> Sane(states[k])
  {
    forall k | 0 <= k < i && Sane(states[k])
      ensures Sane(states[k + 1])
    {
      StepKeepsSane(states[k], steps[k], states[k + 1]);
    }
    SaneChain(states, i);
  }

  /** Every disk a run can reach parses on reopen, controller, journal and core stay coupled
      between actions, opening fails for a failed call only, and the native core never surprises the
      controller. */
  lemma {:induction false} AlwaysCoupledAndReadable(states: seq<Sys>, steps: seq<Step>, i: nat)
    requires Run(states, steps) && Sane(states[0]) && i <= |steps|
    ensures Sane(states[i]) && ReopenedState(states[i].disk).Ok?
    ensures forall k :: 0 <= k < i ==> Expected(steps[k])
  {
    AlwaysSane(states, steps, i);
    forall k | 0 <= k < i
      ensures Expected(steps[k])
    {
      StepIsExpected(states[k], steps[k], states[k + 1]);
    }
    ReopenWellFormed(states[i].disk);
  }

  predicate Expected(step: Step) {
    && (step.Open? ==> (step.result.Some? <==> !step.fault))
    && (step.Act? ==> step.report.failure != Some(Controller.UnexpectedBackendLifecycle))
  }

  lemma StepIsExpected(s: Sys, step: Step, s': Sys)
    requires Sane(s) && Next(s, step, s')
    ensures Expected(step)
  {
    ReopenWellFormed(s.disk);
  }

  // ---------------------------------------------------------------- exactly when

  ghost predicate SafeFrom(s: Sys) {
    forall states, steps :: Run(states, steps) && states[0] == s ==> AllSafe(states, steps)
  }

  ghost predicate AllSafe(states: seq<Sys>, steps: seq<Step>)
    requires |states| == |steps| + 1
  {
    forall k :: 0 <= k < |steps| ==> Safe(states[k], steps[k])
  }

  predicate Anchored(s: Sys) { s.disk.Dir? && s.disk.anchored }

  lemma AnchoredShelters(s: Sys, step: Step, s': Sys)
    requires Inv(s) && Next(s, step, s') && Anchored(s)
    ensures DirectoryHolds(s, step) && Anchored(s')
  {
    match step
    case Act(action, post, report, t) =>
      AnchoredMark(s.disk, action, s'.disk, t);
    case ActCut(action, post, report, t, at, host) =>
      var after :| Controller.Mutated(s.process.value, s.disk, action, post, after, report, t);
      AnchoredCut(s.disk, action, after, t, at);
    case OpenCut(result, trail, fault, last, at, host) =>
      OpeningPrefix(s.disk, trail, fault, at);
    case _ =>
  }

  lemma AnchoredMark(disk: Disk, action: Action, after: Disk, t: Controller.Trace)
    requires disk.Dir? && disk.anchored && Controller.Phases(disk, action, after, t)
    ensures Controller.MarkedDisk(disk, t).anchored && after.anchored
  {
    var marked := Controller.MarkedDisk(disk, t);
    if t.mark != [] { assert MarkKeeps(disk, t.mark[|t.mark| - 1]); }
    if t.clear != [] && !t.cleared { assert ClearKeeps(marked, t.clear[|t.clear| - 1]); }
  }

  lemma AnchoredCut(disk: Disk, action: Action, after: Disk, t: Controller.Trace, at: nat)
    requires disk.Dir? && disk.anchored && Controller.Phases(disk, action, after, t) && at <= |Controller.Flat(t)|
    ensures var found := DiskAfter(disk, Prefix(Controller.Flat(t), at)); found.Dir? && found.anchored
  {
    ReadPrefix(disk, action, after, t, at);
    AnchoredPlace(disk, action, after, t, PlaceOf(t, at));
  }

  lemma AnchoredPlace(disk: Disk, action: Action, after: Disk, t: Controller.Trace, place: Place)
    requires disk.Dir? && disk.anchored && Controller.Phases(disk, action, after, t)
    requires place.InMark? ==> 0 < place.disks <= |t.mark|
    requires place.InClear? ==> 0 < place.disks <= |t.clear|
    ensures PlaceDisk(disk, t, place).Dir? && PlaceDisk(disk, t, place).anchored
  {
    AnchoredMark(disk, action, after, t);
    match place
    case InMark(n) => assert MarkKeeps(disk, t.mark[n - 1]);
    case AtFault =>
    case InClear(n) =>
      if n < |t.clear| { assert ClearKeeps(Controller.MarkedDisk(disk, t), t.clear[n - 1]); }
    case _ =>
  }

  lemma {:induction false} AnchoredRun(states: seq<Sys>, steps: seq<Step>, i: nat)
    requires Run(states, steps) && Inv(states[0]) && Anchored(states[0]) && i <= |steps|
    ensures Inv(states[i]) && Anchored(states[i])
    ensures forall k :: 0 <= k < i ==> Safe(states[k], steps[k])
    decreases i
  {
    if i > 0 {
      AnchoredRun(states, steps, i - 1);
      assert Next(states[i - 1], steps[i - 1], states[i]);
      AnchoredShelters(states[i - 1], steps[i - 1], states[i]);
      StepKeepsInv(states[i - 1], steps[i - 1], states[i]);
    }
  }

  /** A START whose first role write got no answer: fresh bearer, armed, one write. */
  const LOST_FAILURE: Backend.ActionFailure :=
    Backend.ActionFailure(Backend.NativePair, Backend.JblEnterOutcomeUnknown, Some(Backend.Linking))
  const LOST_SCRIPT: seq<Event> := [World.Teardown, ColdConnect, World.Arm, Write(Enter), Fault]
  const LOST_REPORT: Controller.Report :=
    Controller.Report(NativeCore.Start, Controller.OutcomeUnknown, Controller.Unknown, None,
                      Some(Controller.BackendUnknown(Backend.JblEnterOutcomeUnknown)), 2)
  const LOST_CORE: NativeCore.View :=
    NativeCore.View(Backend.Degraded, Some(LOST_FAILURE),
                    Some(Acquisition.Bearer(Acquisition.BrEdr, Acquisition.StableDirect)))
  const LOST_VIEW: Controller.View :=
    Controller.View(Controller.Unknown, true, 1, 2, Some(LOST_REPORT), Pending(JournalAction.Start), LOST_CORE)

  const JBL: Pairing.Identity := [2, 0, 0, 0, 0, 1]
  const AURA: Pairing.Identity := [2, 0, 0, 0, 0, 2]

  function ReadyAnswer(): Event
  {
    MembershipRead(Some(Pairing.PairResponse(JBL, AURA)), JBL, AURA)
  }

  lemma ReadyAnswerIsReady()
    ensures ReadyRead(ReadyAnswer())
  {
    Pairing.PairResponseIsExact(JBL, AURA);
  }

  function MarkTrail(disk: Disk, action: JournalAction): (trail: seq<Disk>)
    requires disk.Dir?
    ensures |trail| == 4 && forall d :: d in trail ==> d.Dir?
  {
    var file := StateFile(Pending(action));
    var marker := Renamed(disk, Marker, file);
    var snapshot := Renamed(DirectorySynced(marker), Snapshot, file);
    [marker, DirectorySynced(marker), snapshot, DirectorySynced(snapshot)]
  }

  lemma MarkTrailMarks(disk: Disk, action: JournalAction)
    requires disk.Dir?
    ensures Marked(disk, action, MarkTrail(disk, action)[3], true, MarkTrail(disk, action))
  {
    var trail := MarkTrail(disk, action);
    CommitKeeps(disk, Marker, Pending(action), trail[1], true, trail[..2]);
    CommitKeeps(trail[1], Snapshot, Pending(action), trail[3], true, trail[2..]);
    assert trail == trail[..2] + trail[2..];
  }

  function LostTrace(disk: Disk, read: Event): (t: Controller.Trace)
    requires disk.Dir?
    ensures |t.mark| == 4
  {
    Controller.Trace([read], true, MarkTrail(disk, JournalAction.Start),
                     Some(Backend.OutcomeUnknown(LOST_FAILURE)), LOST_SCRIPT, [], false, [], false)
  }

  /** The witness is a transaction of the native core. */
  lemma LostScript()
    ensures NativeCore.Outcome(Backend.Offline, NativeCore.Start, LOST_CORE, Backend.OutcomeUnknown(LOST_FAILURE),
                               LOST_SCRIPT)
    ensures HasWrite(LOST_SCRIPT)
  {
    var devices := LOST_SCRIPT[..4];
    assert LOST_SCRIPT == devices + [Fault];
    DevicesAreAll(devices);
    DevicesConcat(devices, [Fault]);
    DevicesAreSilent([Fault]);
    assert LOST_SCRIPT[3].Write?;
    assert devices <= NativeCore.START_SCRIPT;
  }

  /** In every journal directory a fresh process can lose the answer of its first role write. */
  lemma LostStartMutates(disk: Disk, read: Event)
    requires disk.Dir? && ReadyRead(read)
    ensures Controller.Mutated(Fresh(Clean), disk, NativeCore.Start, LOST_VIEW, LostTrace(disk, read).mark[3],
                               LOST_REPORT, LostTrace(disk, read))
  {
    var t := LostTrace(disk, read);
    MarkTrailMarks(disk, JournalAction.Start);
    LostConcludes();
    LostBacked(disk, read);
    Controller.MarkedActionIsMutation(Fresh(Clean), disk, NativeCore.Start, LOST_VIEW, t.mark[3], LOST_REPORT, t);
  }

  lemma LostConcludes()
    ensures Controller.Concluded(false, NativeCore.Start, LOST_VIEW, LOST_SCRIPT, LOST_REPORT, [], false, [])
  {
    Controller.UnknownConcludes(false, NativeCore.Start, LOST_VIEW, LOST_SCRIPT, LOST_REPORT, [], []);
  }

  lemma LostBacked(disk: Disk, read: Event)
    requires disk.Dir?
    ensures Controller.Backed(Fresh(Clean), NativeCore.Start, LOST_VIEW, LOST_REPORT, LostTrace(disk, read))
    ensures OfBackend(LOST_SCRIPT)
  {
    LostScript();
  }

  const LOST_START: Step := Act(NativeCore.Start, LOST_VIEW, LOST_REPORT, LostTrace(NEW_DIRECTORY, ReadyAnswer()))
  const FIRST_OPEN: Step := Open(Some(Clean), [NEW_DIRECTORY], false)

  function Vanished(debt: bool): Sys { Sys(None, Missing, debt) }
  function JustOpened(debt: bool): Sys { Sys(Some(Fresh(Clean)), NEW_DIRECTORY, debt) }
  function LeftInDoubt(): Sys { Sys(Some(LOST_VIEW), LostTrace(NEW_DIRECTORY, ReadyAnswer()).mark[3], true) }

  lemma LostStart(debt: bool)
    ensures Next(JustOpened(debt), LOST_START, LeftInDoubt())
    ensures HasWrite(Executed(LOST_START))
  {
    ReadyAnswerIsReady();
    LostStartMutates(NEW_DIRECTORY, ReadyAnswer());
    LostScript();
    ReadPrefixWrites(LOST_START.trace);
    LostDoesNotResolve(NEW_DIRECTORY, ReadyAnswer());
  }

  lemma ReadPrefixWrites(t: Controller.Trace)
    requires HasWrite(t.script)
    ensures HasWrite(Controller.Flat(t))
  {
    var i :| 0 <= i < |t.script| && t.script[i].Write?;
    var settling := Controller.Settling(t.check, t.clear, t.stuck);
    assert (t.script + settling)[i] == t.script[i];
    WritesConcat(Disks(t.mark), t.script + settling);
    WritesConcat(t.preflight, Controller.Acts(t));
  }

  lemma LostDoesNotResolve(disk: Disk, read: Event)
    requires disk.Dir?
    ensures !Resolves(Controller.Flat(LostTrace(disk, read)))
  {
    var t := LostTrace(disk, read);
    assert Controller.Settling(t.check, t.clear, t.stuck) == [];
    var events := Controller.Flat(t);
    assert events == t.preflight + Disks(t.mark) + t.script;
    assert events[|events| - 1] == LOST_SCRIPT[4];
  }

  lemma FirstOpen(debt: bool)
    ensures Next(Vanished(debt), FIRST_OPEN, JustOpened(debt))
  {
  }

  lemma Vanishes(s: Sys)
    requires !Anchored(s)
    ensures Next(s, Crash(true), Vanished(s.debt))
  {
  }

  lemma RunOfOne(s: Sys, step: Step, s': Sys)
    requires Next(s, step, s')
    ensures Run([s, s'], [step])
  {
  }

  lemma RunConcat(a: seq<Sys>, x: seq<Step>, b: seq<Sys>, y: seq<Step>)
    requires Run(a, x) && Run(b, y) && a[|a| - 1] == b[0]
    ensures Run(a + b[1..], x + y)
  {
    var states, steps := a + b[1..], x + y;
    forall i | 0 <= i < |steps|
      ensures Next(states[i], steps[i], states[i + 1])
    {
      if i < |x| {
        assert states[i] == a[i] && states[i + 1] == a[i + 1] && steps[i] == x[i];
      } else {
        var j := i - |x|;
        assert states[i] == b[j] && states[i + 1] == b[j + 1] && steps[i] == y[j];
      }
    }
  }

  function ThreeStates(a: Sys, b: Sys, c: Sys, d: Sys): seq<Sys> { [a, b] + [b, c][1..] + [c, d][1..] }

  lemma RunOfThree(a: Sys, x: Step, b: Sys, y: Step, c: Sys, z: Step, d: Sys)
    requires Run([a, b], [x]) && Run([b, c], [y]) && Run([c, d], [z])
    ensures Run(ThreeStates(a, b, c, d), [x] + [y] + [z])
  {
    RunConcat([a, b], [x], [b, c], [y]);
    RunConcat([a, b] + [b, c][1..], [x] + [y], [c, d], [z]);
  }

  lemma ThreeAreStates(a: Sys, b: Sys, c: Sys, d: Sys)
    ensures var states := ThreeStates(a, b, c, d);
            |states| == 4 && states[0] == a && states[2] == c && states[3] == d
  {
  }

  /** Two runs of three steps, one after the other. */
  lemma RunOfSix(a: seq<Sys>, x: seq<Step>, b: seq<Sys>, y: seq<Step>)
    requires Run(a, x) && Run(b, y) && |x| == 3 == |y| && a[3] == b[0]
    ensures var states, steps := a + b[1..], x + y;
            |states| == 7 && Run(states, steps) && states[0] == a[0] && states[5] == b[2] && steps[5] == y[2]
  {
    RunConcat(a, x, b, y);
  }

  const LAPSE: seq<Step> := [Crash(true)] + [FIRST_OPEN] + [LOST_START]

  function LapseStates(s: Sys): seq<Sys> {
    ThreeStates(s, Vanished(s.debt), JustOpened(s.debt), LeftInDoubt())
  }

  /** A host crash loses the directory, the journal opens clean, and a START writes. */
  lemma Lapse(s: Sys)
    requires !Anchored(s)
    ensures Run(LapseStates(s), LAPSE)
  {
    LapseSteps(s);
    RunOfThree(s, Crash(true), Vanished(s.debt), FIRST_OPEN, JustOpened(s.debt), LOST_START, LeftInDoubt());
  }

  lemma LapseSteps(s: Sys)
    requires !Anchored(s)
    ensures Run([s, Vanished(s.debt)], [Crash(true)])
    ensures Run([Vanished(s.debt), JustOpened(s.debt)], [FIRST_OPEN])
    ensures Run([JustOpened(s.debt), LeftInDoubt()], [LOST_START])
  {
    Vanishes(s);
    RunOfOne(s, Crash(true), Vanished(s.debt));
    FirstOpen(s.debt);
    RunOfOne(Vanished(s.debt), FIRST_OPEN, JustOpened(s.debt));
    LostStart(s.debt);
    RunOfOne(JustOpened(s.debt), LOST_START, LeftInDoubt());
  }

  /** While the directory's own entry is not durable, two such lapses are enough for an ordinary
      START to write over an unresolved one. */
  lemma UnanchoredCanForget(s: Sys) returns (states: seq<Sys>, steps: seq<Step>)
    requires !Anchored(s)
    ensures Run(states, steps) && states[0] == s && |steps| == 6 && !Safe(states[5], steps[5])
  {
    var first, second := LapseStates(s), LapseStates(LeftInDoubt());
    Lapse(s);
    Lapse(LeftInDoubt());
    ThreeAreStates(s, Vanished(s.debt), JustOpened(s.debt), LeftInDoubt());
    ThreeAreStates(LeftInDoubt(), Vanished(true), JustOpened(true), LeftInDoubt());
    RunOfSix(first, LAPSE, second, LAPSE);
    WritesOverDoubt();
    states, steps := first + second[1..], LAPSE + LAPSE;
  }

  lemma WritesOverDoubt()
    ensures !Safe(JustOpened(true), LOST_START)
  {
    LostStart(true);
  }

  /** Exactly when every continuation is safe, whatever crashes it contains: the journal
      directory's own entry has become durable. */
  lemma SafeExactlyWhenAnchored(s: Sys)
    requires Inv(s)
    ensures SafeFrom(s) <==> Anchored(s)
  {
    if Anchored(s) {
      forall states, steps | Run(states, steps) && states[0] == s
        ensures AllSafe(states, steps)
      {
        AnchoredRun(states, steps, |steps|);
      }
    } else {
      var states, steps := UnanchoredCanForget(s);
      assert !AllSafe(states, steps);
    }
  }
}
