/**
 Safety is not bought with a dead end: whatever happened before, a new process opens the journal,
 and one recovery that the devices answer resolves what was left in doubt.
 */
module Recovery {
  import opened Wrappers
  import opened World
  import opened Journal
  import opened Runs
  import Acquisition
  import Backend
  import Controller
  import NativeCore

  // ---------------------------------------------------------------- reopening

  /** The disks of an opening in which no call fails. */
  function OpenTrail(disk: Disk, state: JournalState): seq<Disk> {
    if disk.Missing? then [NEW_DIRECTORY]
    else if disk.marker.now.None? && state.Pending?
    then [Renamed(disk, Marker, StateFile(state)), OpenedDisk(disk, state)]
    else []
  }

  /** Every disk a run can reach opens when no call fails, in the state its entries denote. */
  lemma OpensWhole(disk: Disk, state: JournalState)
    requires WellFormed(disk) && ReopenedState(disk) == Ok(state)
    ensures Opened(disk, OpenedDisk(disk, state), Some(state), OpenTrail(disk, state), false)
  {
    ArmedReopensPending(disk);
    if disk.Dir? && disk.marker.now.None? && state.Pending? {
      CommitKeeps(disk, Marker, state, OpenedDisk(disk, state), true, OpenTrail(disk, state));
    }
  }

  // ---------------------------------------------------------------- a recovery that is answered

  const ACKNOWLEDGED: Event := Received([0x1b, 0xec, 0x03, 0xaa, 0x00, 0x02, 0x13, 0x00])

  /** Both teardowns, a fresh bearer, and the three writes with their answers. */
  const CONNECTED: seq<Event> := [World.Teardown, World.Teardown, ColdConnect, World.Arm]
  const ANSWERED: seq<Event> :=
    [Write(AuraOff), ACKNOWLEDGED, Write(BroadcastStop), GattReply([0x13]), Write(Exit), Answered(Exit)]
  const PAID_SCRIPT: seq<Event> := CONNECTED + ([Probe(true), QueueEmpty] + ANSWERED)

  const PAID_CORE: NativeCore.View :=
    NativeCore.View(Backend.Ready, None, Some(Acquisition.Bearer(Acquisition.BrEdr, Acquisition.StableDirect)))
  const PAID_RECEIPT: Backend.Receipt :=
    Backend.Receipt(Backend.NativePair, Backend.Ready, Backend.BroadcastAcknowledgementOnly, false)
  const PAID_REPORT: Controller.Report :=
    Controller.Report(NativeCore.RecoverStop, Controller.AcceptedUnconfirmed, Controller.Ready,
                      Some(Backend.BroadcastAcknowledgementOnly), None, 2)
  const PAID_VIEW: Controller.View :=
    Controller.View(Controller.Ready, false, 0, 2, Some(PAID_REPORT), Clean, PAID_CORE)

  lemma AnsweredDevices()
    ensures Devices(ANSWERED) == NativeCore.STOP_ROLES
  {
    var a, b, c := ANSWERED[..2], ANSWERED[2..4], ANSWERED[4..];
    assert a == [Write(AuraOff)] + [ACKNOWLEDGED];
    assert b == [Write(BroadcastStop)] + [GattReply([0x13])];
    assert c == [Write(Exit)] + [Answered(Exit)];
    DevicesConcat([Write(AuraOff)], [ACKNOWLEDGED]);
    DevicesConcat([Write(BroadcastStop)], [GattReply([0x13])]);
    DevicesConcat([Write(Exit)], [Answered(Exit)]);
    assert ANSWERED == a + b + c;
    DevicesConcat(a + b, c);
    DevicesConcat(a, b);
  }

  lemma PaidDevices()
    ensures Devices(PAID_SCRIPT) == NativeCore.Script(NativeCore.RecoverStop, Backend.Offline)
  {
    AnsweredDevices();
    DevicesAreAll(CONNECTED);
    DevicesAreSilent([Probe(true), QueueEmpty]);
    DevicesConcat([Probe(true), QueueEmpty], ANSWERED);
    DevicesConcat(CONNECTED, [Probe(true), QueueEmpty] + ANSWERED);
  }

  lemma AnsweredOnce(role: Role, answer: Event)
    requires Silent([answer]) && answer != Fault && NativeCore.Positive(role, [answer])
    ensures NativeCore.Tidy([Write(role)] + [answer], true)
  {
    NativeCore.TidySingle([], role, [answer], true);
    assert [] + [Write(role)] + [answer] == [Write(role)] + [answer];
  }

  lemma AllThreeAnswered()
    ensures NativeCore.Tidy(ANSWERED, true)
  {
    var a, b := [Write(AuraOff)] + [ACKNOWLEDGED], [Write(BroadcastStop)] + [GattReply([0x13])];
    var c := [Write(Exit)] + [Answered(Exit)];
    AnsweredOnce(AuraOff, ACKNOWLEDGED);
    AnsweredOnce(BroadcastStop, GattReply([0x13]));
    AnsweredOnce(Exit, Answered(Exit));
    NativeCore.TidyThen(b, c, true);
    NativeCore.TidyThen(a, b + c, true);
    assert ANSWERED == a + (b + c);
  }

  lemma PaidAnswers()
    ensures NativeCore.Tidy(PAID_SCRIPT, true)
  {
    var look := [Probe(true), QueueEmpty];
    AllThreeAnswered();
    NativeCore.TidyWithoutWrites(CONNECTED);
    NativeCore.TidyWithoutWrites(look);
    NativeCore.TidyThen(look, ANSWERED, true);
    NativeCore.TidyThen(CONNECTED, look + ANSWERED, true);
  }

  /** The witness is an accepted transaction of the native core. */
  lemma PaidScript()
    ensures NativeCore.Outcome(Backend.Offline, NativeCore.RecoverStop, PAID_CORE, Backend.Accepted(PAID_RECEIPT),
                               PAID_SCRIPT)
  {
    PaidDevices();
    PaidAnswers();
    assert Subscribed !in PAID_SCRIPT;
  }

  function ClearTrail(marked: Disk): (trail: seq<Disk>)
    requires marked.Dir?
    ensures |trail| == 3 && trail[2].Dir?
  {
    var renamed := Renamed(marked, Snapshot, StateFile(Clean));
    var synced := DirectorySynced(renamed);
    [renamed, synced, MarkerUnlinked(synced)]
  }

  lemma ClearTrailClears(marked: Disk)
    requires marked.Dir?
    ensures Cleared(marked, ClearTrail(marked)[2], true, ClearTrail(marked))
  {
    var trail := ClearTrail(marked);
    CommitKeeps(marked, Snapshot, Clean, trail[1], true, trail[..2]);
    assert forall i :: 0 <= i < 2 ==> trail[..2][i] == trail[i];
  }

  function PaidTrace(disk: Disk, read: Event): (t: Controller.Trace)
    requires disk.Dir?
    ensures |t.clear| == 3
  {
    var mark := MarkTrail(disk, JournalAction.RecoverStop);
    Controller.Trace([read], true, mark, Some(Backend.Accepted(PAID_RECEIPT)), PAID_SCRIPT, [read], true,
                     ClearTrail(mark[3]), false)
  }

  /** A fresh process that found a pending record can have its recovery accepted. */
  lemma PaidRecovers(disk: Disk, state: JournalState, read: Event)
    requires disk.Dir? && state.Pending? && ReadyRead(read)
    ensures Controller.Mutated(Fresh(state), disk, NativeCore.RecoverStop, PAID_VIEW, PaidTrace(disk, read).clear[2],
                               PAID_REPORT, PaidTrace(disk, read))
  {
    var t := PaidTrace(disk, read);
    MarkTrailMarks(disk, JournalAction.RecoverStop);
    ClearTrailClears(t.mark[3]);
    PaidScript();
    Controller.AcceptedConcludes(true, NativeCore.RecoverStop, PAID_VIEW, PAID_SCRIPT, PAID_REPORT, [read], t.clear);
    Controller.MarkedActionIsMutation(Fresh(state), disk, NativeCore.RecoverStop, PAID_VIEW, t.clear[2], PAID_REPORT,
                                      t);
  }

  function PaidStep(disk: Disk): Step
    requires disk.Dir?
  {
    Act(NativeCore.RecoverStop, PAID_VIEW, PAID_REPORT, PaidTrace(disk, ReadyAnswer()))
  }

  /** A process that found a pending record. */
  ghost predicate InDoubt(s: Sys) {
    s.disk.Dir? && exists action :: s.process == Some(Fresh(Pending(action)))
  }

  lemma Pays(s: Sys) returns (pay: Step, paid: Sys)
    requires InDoubt(s)
    ensures Recovery(pay) && Run([s, paid], [pay])
    ensures !paid.debt && paid.process.Some? && !paid.process.value.unresolved
  {
    var action :| s.process == Some(Fresh(Pending(action)));
    var t := PaidTrace(s.disk, ReadyAnswer());
    pay, paid := PaidStep(s.disk), Sys(Some(PAID_VIEW), t.clear[2], false);
    ReadyAnswerIsReady();
    PaidRecovers(s.disk, Pending(action), ReadyAnswer());
    AcceptedResolves(s.disk, NativeCore.RecoverStop, t.clear[2], t);
    RunOfOne(s, pay, paid);
  }

  // ---------------------------------------------------------------- recoverability

  /** A new process after the old one ended. */
  lemma Restarts(s: Sys) returns (open: Step, down: Sys, up: Sys)
    requires Inv(s) && s.debt
    ensures open.Open? && !open.fault && InDoubt(up)
    ensures Run([s, down], [Crash(false)]) && Run([down, up], [open])
  {
    ReopenWellFormed(s.disk);
    ArmedReopensPending(s.disk);
    var state := ReopenedState(s.disk).value;
    open := Open(Some(state), OpenTrail(s.disk, state), false);
    down, up := Sys(None, s.disk, true), Sys(Some(Fresh(state)), OpenedDisk(s.disk, state), true);
    OpensWhole(s.disk, state);
    OpeningIsSilent(open);
    OpeningIsSilent(Crash(false));
    RunOfOne(s, Crash(false), down);
    RunOfOne(down, open, up);
  }

  /** From every state of a sheltered run that has a debt, three steps resolve it: the process
      ends, a new one opens the journal, and its recovery is answered. */
  lemma DebtCanBeResolved(s: Sys) returns (states: seq<Sys>, steps: seq<Step>)
    requires Inv(s) && s.debt
    ensures Run(states, steps) && |steps| == 3 && states[0] == s
    ensures steps[0] == Crash(false) && steps[1].Open? && !steps[1].fault && Recovery(steps[2])
    ensures !states[3].debt && states[3].process.Some? && !states[3].process.value.unresolved
  {
    var open, down, up := Restarts(s);
    var pay, paid := Pays(up);
    RunOfThree(s, Crash(false), down, open, up, pay, paid);
    ThreeAreStates(s, down, up, paid);
    states, steps := ThreeStates(s, down, up, paid), [Crash(false)] + [open] + [pay];
  }
}
