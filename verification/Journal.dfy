/**
 The crash-persistent uncertainty journal: a two-file record kept in one private
 directory.  `marker` is the authoritative pending file, `snapshot` the
 replaceable human-readable one.

 A directory entry has a volatile value (what this boot sees) and a set of older
 values that a host crash may bring back, because directory updates become
 durable only at a directory fsync.  Entries are resurrected independently of each
 other, and a file renamed into place before its own fsync comes back with
 arbitrary bytes.
 */
module Journal {
  import opened Wrappers
  import opened World

  datatype JournalAction = Start | Stop | Shutdown | RecoverStop

  datatype JournalState = Clean | Pending(action: JournalAction)

  datatype JournalError = StateDirectoryUnavailable | JournalInvalid | JournalWriteFailed

  const MAX_JOURNAL_BYTES: nat := 128

  // ---------------------------------------------------------------- codec

  function Label(action: JournalAction): string {
    match action
    case Start => "start"
    case Stop => "stop"
    case Shutdown => "shutdown"
    case RecoverStop => "recover-stop"
  }

  function ParseLabel(value: string): Option<JournalAction> {
    if value == "start" then Some(Start)
    else if value == "stop" then Some(Stop)
    else if value == "shutdown" then Some(Shutdown)
    else if value == "recover-stop" then Some(RecoverStop)
    else None
  }

  const CLEAN_PAYLOAD: string := "version=1\nstate=clean\n"
  const PENDING_PREFIX: string := "version=1\nstate=pending\naction="

  function EncodeState(state: JournalState): string {
    match state
    case Clean => CLEAN_PAYLOAD
    case Pending(action) => PENDING_PREFIX + Label(action) + "\n"
  }

  function ParseState(payload: string): Option<JournalState> {
    if payload == CLEAN_PAYLOAD then Some(Clean)
    else if !(PENDING_PREFIX <= payload) then None
    else
      var rest := payload[|PENDING_PREFIX|..];
      if rest == "" || rest[|rest| - 1] != '\n' then None
      else
        match ParseLabel(rest[..|rest| - 1])
        case Some(action) => Some(Pending(action))
        case None => None
  }

  /** The codec is exact: a payload parses to a state precisely when it is that
      state's encoding, so nothing else is ever accepted and nothing is lost. */
  lemma CodecIsExact(payload: string, state: JournalState)
    ensures ParseState(payload) == Some(state) <==> payload == EncodeState(state)
    ensures |EncodeState(state)| <= MAX_JOURNAL_BYTES
  {
    if payload == EncodeState(state) && state.Pending? { EncodedPendingParses(state.action); }
    if ParseState(payload) == Some(state) && state.Pending? {
      var rest := payload[|PENDING_PREFIX|..];
      assert rest == rest[..|rest| - 1] + "\n";
      assert payload == PENDING_PREFIX + rest;
    }
  }

  lemma EncodedPendingParses(action: JournalAction)
    ensures ParseState(EncodeState(Pending(action))) == Some(Pending(action))
  {
    var payload, name := EncodeState(Pending(action)), Label(action);
    assert payload[|PENDING_PREFIX|..] == name + "\n";
    assert (name + "\n")[..|name|] == name;
    assert payload[16] == 'p' && CLEAN_PAYLOAD[16] == 'c';
  }

  // ---------------------------------------------------------------- disk

  datatype Entry = Marker | Snapshot

  const EMPTY_SLOT: Slot := Slot(None, {})

  /** What creating the application directory leaves: nothing in it, and not yet durable. */
  const NEW_DIRECTORY: Disk := Dir(EMPTY_SLOT, EMPTY_SLOT, false)

  function StateFile(state: JournalState): File { File(EncodeState(state), true) }

  function Renamed(disk: Disk, target: Entry, file: File): Disk
    requires disk.Dir?
  {
    match target
    case Marker => disk.(marker := Slot(Some(file), disk.marker.past + {disk.marker.now}))
    case Snapshot => disk.(snapshot := Slot(Some(file), disk.snapshot.past + {disk.snapshot.now}))
  }

  function DirectorySynced(disk: Disk): Disk
    requires disk.Dir?
  {
    disk.(marker := disk.marker.(past := {}), snapshot := disk.snapshot.(past := {}))
  }

  function MarkerUnlinked(disk: Disk): Disk
    requires disk.Dir?
  {
    disk.(marker := Slot(None, disk.marker.past + {disk.marker.now}))
  }

  /** What a version of an entry can look like after the host lost power. */
  ghost predicate Restored(version: Option<File>, found: Option<File>) {
    match version
    case None => found.None?
    case Some(file) => found.Some? && found.value.synced && (file.synced ==> found.value.content == file.content)
  }

  ghost predicate SlotAfterHostCrash(slot: Slot, found: Slot) {
    found.past == {} && exists version :: slot.MayBe(version) && Restored(version, found.now)
  }

  /** An unanchored directory can be lost whole; an entry that survived is durable. */
  ghost predicate HostCrash(disk: Disk, found: Disk) {
    match disk
    case Missing => found == Missing
    case Dir(marker, snapshot, anchored) =>
      || (!anchored && found == Missing)
      || (found.Dir? && found.anchored
          && SlotAfterHostCrash(marker, found.marker) && SlotAfterHostCrash(snapshot, found.snapshot))
  }

  // ---------------------------------------------------------------- reopening

  function ReadState(slot: Slot): Result<Option<JournalState>, JournalError> {
    match slot.now
    case None => Ok(None)
    case Some(file) =>
      if |file.content| > MAX_JOURNAL_BYTES then Err(JournalInvalid)
      else
        match ParseState(file.content)
        case None => Err(JournalInvalid)
        case Some(state) => Ok(Some(state))
  }

  /** The state a reopened journal starts from. */
  function ReopenedState(disk: Disk): Result<JournalState, JournalError> {
    if disk.Missing? then Ok(Clean)
    else
      var snapshot :- ReadState(disk.snapshot);
      var marker :- ReadState(disk.marker);
      match marker
      case Some(Pending(action)) => Ok(Pending(action))
      case Some(Clean) => Err(JournalInvalid)
      case None => Ok(if snapshot.Some? then snapshot.value else Clean)
  }

  ghost predicate ReopensPending(disk: Disk) {
    ReopenedState(disk).Ok? && ReopenedState(disk).value.Pending?
  }

  /** The durability law: pending after a process crash and after every host crash. */
  ghost predicate SurvivesPending(disk: Disk) {
    ReopensPending(disk) && forall found :: HostCrash(disk, found) ==> ReopensPending(found)
  }

  // ---------------------------------------------------------------- invariants

  ghost predicate IsStateFile(version: Option<File>) {
    version.None? || exists state :: version == Some(StateFile(state))
  }

  ghost predicate IsPendingFile(version: Option<File>) {
    exists action :: version == Some(StateFile(Pending(action)))
  }

  /** Every version of every entry is a fully synced encoding, and no marker says clean. */
  ghost predicate WellFormed(disk: Disk) {
    disk.Dir? ==>
      && (forall v :: disk.marker.MayBe(v) ==> v.None? || IsPendingFile(v))
      && (forall v :: disk.snapshot.MayBe(v) ==> IsStateFile(v))
  }

  ghost predicate MarkerArmed(disk: Disk) {
    disk.Dir? && forall v :: disk.marker.MayBe(v) ==> IsPendingFile(v)
  }

  ghost predicate SnapshotArmed(disk: Disk) {
    disk.Dir? && forall v :: disk.snapshot.MayBe(v) ==> IsPendingFile(v)
  }

  ghost predicate Armed(disk: Disk) { MarkerArmed(disk) || SnapshotArmed(disk) }

  lemma ReadStateFile(slot: Slot, state: JournalState)
    requires slot.now == Some(StateFile(state))
    ensures ReadState(slot) == Ok(Some(state))
  {
    CodecIsExact(EncodeState(state), state);
  }

  /** Reopening a well-formed disk never fails, and finds pending exactly when the
      marker is there or the snapshot says so. */
  lemma ReopenWellFormed(disk: Disk)
    requires WellFormed(disk)
    ensures ReopenedState(disk).Ok?
    ensures ReopensPending(disk) <==> disk.Dir? && (disk.marker.now.Some? || IsPendingFile(disk.snapshot.now))
  {
    if disk.Dir? {
      assert disk.marker.MayBe(disk.marker.now) && disk.snapshot.MayBe(disk.snapshot.now);
      if disk.snapshot.now.Some? {
        var state :| disk.snapshot.now == Some(StateFile(state));
        ReadStateFile(disk.snapshot, state);
        if IsPendingFile(disk.snapshot.now) {
          var action :| disk.snapshot.now == Some(StateFile(Pending(action)));
          ReadStateFile(disk.snapshot, Pending(action));
        }
      }
      if disk.marker.now.Some? {
        var action :| disk.marker.now == Some(StateFile(Pending(action)));
        ReadStateFile(disk.marker, Pending(action));
      }
    }
  }

  /** Every disk a host crash can leave behind is well formed again, hence parses. */
  lemma HostCrashKeepsWellFormed(disk: Disk, found: Disk)
    requires WellFormed(disk) && HostCrash(disk, found)
    ensures WellFormed(found) && ReopenedState(found).Ok?
    ensures MarkerArmed(disk) && found.Dir? ==> MarkerArmed(found)
    ensures SnapshotArmed(disk) && found.Dir? ==> SnapshotArmed(found)
  {
    if found.Dir? {
      forall v | found.marker.MayBe(v)
        ensures disk.marker.MayBe(v)
      {
        var w :| disk.marker.MayBe(w) && Restored(w, found.marker.now);
        assert w == found.marker.now;
      }
      forall v | found.snapshot.MayBe(v)
        ensures disk.snapshot.MayBe(v)
      {
        var w :| disk.snapshot.MayBe(w) && Restored(w, found.snapshot.now);
        assert w == found.snapshot.now;
      }
    }
    ReopenWellFormed(found);
  }

  /** The durability law holds exactly when no combination of surviving versions lacks
      a pending record and the directory itself cannot vanish. */
  lemma DurabilityLaw(disk: Disk)
    requires WellFormed(disk)
    ensures SurvivesPending(disk) <==> Armed(disk) && disk.anchored
  {
    if Armed(disk) && disk.anchored {
      assert disk.marker.MayBe(disk.marker.now) && disk.snapshot.MayBe(disk.snapshot.now);
      ReopenWellFormed(disk);
      forall found | HostCrash(disk, found)
        ensures ReopensPending(found)
      {
        HostCrashKeepsWellFormed(disk, found);
        assert found.marker.MayBe(found.marker.now) && found.snapshot.MayBe(found.snapshot.now);
        ReopenWellFormed(found);
      }
    } else if disk.Dir? && SurvivesPending(disk) {
      if !disk.anchored {
        assert HostCrash(disk, Missing);
      } else {
        UnarmedCanReopenClean(disk);
      }
    }
  }

  lemma UnarmedCanReopenClean(disk: Disk)
    requires WellFormed(disk) && disk.Dir? && !Armed(disk)
    ensures exists found :: HostCrash(disk, found) && !ReopensPending(found)
  {
    var m :| disk.marker.MayBe(m) && !IsPendingFile(m);
    var s :| disk.snapshot.MayBe(s) && !IsPendingFile(s);
    var found := Dir(Slot(m, {}), Slot(s, {}), true);
    assert Restored(m, m);
    assert Restored(s, s) by { if s.Some? { var state :| s == Some(StateFile(state)); } }
    assert HostCrash(disk, found);
    HostCrashKeepsWellFormed(disk, found);
    ReopenWellFormed(found);
  }

  lemma ArmedReopensPending(disk: Disk)
    ensures WellFormed(disk) && Armed(disk) ==> ReopensPending(disk)
  {
    if WellFormed(disk) && Armed(disk) {
      ReopenWellFormed(disk);
      assert disk.marker.MayBe(disk.marker.now) && disk.snapshot.MayBe(disk.snapshot.now);
    }
  }

  // ---------------------------------------------------------------- contracts of the protocol steps

  /** `trail` lists every disk the step passed through, so a crash inside the step
      finds the old disk or one of these. */
  ghost predicate Trail(before: Disk, trail: seq<Disk>, after: Disk) {
    after == if trail == [] then before else trail[|trail| - 1]
  }

  ghost predicate Committed(before: Disk, target: Entry, state: JournalState, after: Disk, ok: bool, trail: seq<Disk>)
    requires before.Dir?
  {
    var renamed := Renamed(before, target, StateFile(state));
    if ok then after == DirectorySynced(renamed) && trail == [renamed, after]
    else (after == before && trail == []) || (after == renamed && trail == [renamed])
  }

  /** What publishing a pending record keeps at each of its disks. */
  ghost predicate MarkKeeps(before: Disk, at: Disk)
    requires before.Dir?
  {
    && at.Dir? && at.anchored == before.anchored
    && (WellFormed(before) ==> WellFormed(at))
    && (MarkerArmed(before) ==> MarkerArmed(at))
    && (SnapshotArmed(before) ==> SnapshotArmed(at))
  }

  ghost predicate Marked(before: Disk, action: JournalAction, after: Disk, ok: bool, trail: seq<Disk>)
    requires before.Dir?
  {
    && Trail(before, trail, after)
    && (forall i :: 0 <= i < |trail| ==> MarkKeeps(before, trail[i]) && trail[i].marker.now.Some?)
    && (ok ==> after == Dir(Slot(Some(StateFile(Pending(action))), {}),
                            Slot(Some(StateFile(Pending(action))), {}), before.anchored))
  }

  /** What clearing keeps at each disk before the final unlink. */
  ghost predicate ClearKeeps(before: Disk, at: Disk)
    requires before.Dir?
  {
    && at.Dir? && at.anchored == before.anchored
    && (WellFormed(before) ==> WellFormed(at))
    && (MarkerArmed(before) ==> MarkerArmed(at))
  }

  ghost predicate Cleared(before: Disk, after: Disk, ok: bool, trail: seq<Disk>)
    requires before.Dir?
  {
    && Trail(before, trail, after)
    && (forall i :: 0 <= i < |trail| - (if ok then 1 else 0) ==>
          ClearKeeps(before, trail[i]) && trail[i].marker.now == before.marker.now)
    && (ok ==>
          && trail != []
          && after.Dir? && after.anchored == before.anchored
          && (WellFormed(before) ==> WellFormed(after))
          && after.marker.now.None?
          && after.snapshot == Slot(Some(StateFile(Clean)), {}))
  }

  /** What opening keeps.  It fails exactly when a call failed or the entries do not parse, and
      otherwise starts from the state they denote. */
  ghost predicate Opened(before: Disk, after: Disk, result: Option<JournalState>, trail: seq<Disk>, fault: bool) {
    && Trail(before, trail, after)
    && (result.None? <==> fault || ReopenedState(before).Err?)
    && (WellFormed(before) ==>
          && WellFormed(after)
          && (forall i :: 0 <= i < |trail| ==> WellFormed(trail[i])))
    && (before.Dir? ==>
          && after.Dir? && after.anchored == before.anchored
          && (forall i :: 0 <= i < |trail| ==> trail[i].Dir? && trail[i].anchored == before.anchored)
          && (Armed(before) ==> Armed(after) && forall i :: 0 <= i < |trail| ==> Armed(trail[i])))
    && (before.Missing? && after.Dir? ==> !after.anchored)
    && (result.Some? ==>
          && after == OpenedDisk(before, result.value)
          && ReopenedState(before) == Ok(result.value)
          && (WellFormed(before) && Armed(before) ==> result.value.Pending?))
  }

  /** The disk of an opened journal: a record that only the snapshot holds is published as a marker too. */
  function OpenedDisk(before: Disk, state: JournalState): (after: Disk)
    ensures after.Dir?
  {
    var found := if before.Missing? then NEW_DIRECTORY else before;
    if found.marker.now.None? && state.Pending?
    then DirectorySynced(Renamed(found, Marker, StateFile(state))) else found
  }

  lemma CommitKeeps(before: Disk, target: Entry, state: JournalState, after: Disk, ok: bool, trail: seq<Disk>)
    requires before.Dir? && Committed(before, target, state, after, ok, trail)
    requires target.Marker? ==> state.Pending?
    ensures Trail(before, trail, after)
    ensures ok ==> trail != []
    ensures forall i :: 0 <= i < |trail| ==> ClearKeeps(before, trail[i])
    ensures state.Pending? ==> forall i :: 0 <= i < |trail| ==> MarkKeeps(before, trail[i])
    ensures ClearKeeps(before, after) && (state.Pending? ==> MarkKeeps(before, after))
  {
    var renamed := Renamed(before, target, StateFile(state));
    assert IsStateFile(Some(StateFile(state)));
    assert state.Pending? ==> IsPendingFile(Some(StateFile(Pending(state.action))));
  }

  /** A successful mark survives every crash exactly when the directory itself is durable. */
  lemma MarkIsDurable(before: Disk, action: JournalAction, after: Disk, trail: seq<Disk>)
    requires before.Dir? && WellFormed(before) && Marked(before, action, after, true, trail)
    ensures WellFormed(after) && ReopensPending(after)
    ensures SurvivesPending(after) <==> before.anchored
  {
    assert IsPendingFile(after.marker.now);
    assert IsStateFile(after.snapshot.now);
    assert MarkerArmed(after);
    ReopenWellFormed(after);
    DurabilityLaw(after);
  }

  /** Publishing again, even when it fails half way, never weakens an existing record. */
  lemma RemarkNeverWeakens(before: Disk, action: JournalAction, after: Disk, ok: bool, trail: seq<Disk>, i: nat)
    requires before.Dir? && WellFormed(before) && Marked(before, action, after, ok, trail) && i < |trail|
    ensures SurvivesPending(before) ==> SurvivesPending(trail[i])
  {
    assert MarkKeeps(before, trail[i]);
    DurabilityLaw(before);
    DurabilityLaw(trail[i]);
  }

  /** Until the unlink has happened, clearing reopens pending. */
  lemma UnfinishedClearReopensPending(before: Disk, after: Disk, ok: bool, trail: seq<Disk>)
    requires before.Dir? && WellFormed(before) && MarkerArmed(before) && Cleared(before, after, ok, trail)
    ensures forall i :: 0 <= i < |trail| - (if ok then 1 else 0) ==>
              ReopensPending(trail[i]) && (SurvivesPending(trail[i]) <==> before.anchored)
    ensures !ok ==> ReopensPending(after) && (SurvivesPending(after) <==> before.anchored)
  {
    forall i | 0 <= i < |trail| - (if ok then 1 else 0)
      ensures ReopensPending(trail[i]) && (SurvivesPending(trail[i]) <==> before.anchored)
    {
      assert ClearKeeps(before, trail[i]);
      ArmedMarkerSurvives(trail[i]);
    }
    if trail == [] { ArmedMarkerSurvives(before); }
  }

  lemma ArmedMarkerSurvives(at: Disk)
    requires WellFormed(at) && MarkerArmed(at)
    ensures ReopensPending(at) && (SurvivesPending(at) <==> at.anchored)
  {
    assert at.marker.MayBe(at.marker.now);
    ReopenWellFormed(at);
    DurabilityLaw(at);
  }

  /** Owner of the journal directory. */
  class FileUncertaintyJournal {
    var state: JournalState
    var disk: Disk
    ghost const log: Log

    ghost predicate Valid()
      reads this
    {
      disk.Dir?
    }

    predicate IsPending()
      reads this
    {
      state.Pending?
    }

    constructor Adopt(state: JournalState, disk: Disk, ghost log: Log)
      ensures this.state == state && this.disk == disk && this.log == log
    {
      this.state := state;
      this.disk := disk;
      this.log := log;
    }

    /** Opens the journal directory, creating it when absent.  Any call may fail. */
    static method OpenUnder(disk: Disk, ghost log: Log)
      returns (journal: Option<FileUncertaintyJournal>, after: Disk, ghost trail: seq<Disk>, ghost fault: bool)
      modifies log
      ensures journal.Some? ==> fresh(journal.value) && journal.value.Valid()
      ensures journal.Some? ==> journal.value.disk == after && journal.value.log == log
      ensures Opened(disk, after, if journal.Some? then Some(journal.value.state) else None, trail, fault)
      ensures log.events == old(log.events) + (Disks(trail) + Faults(!fault))
    {
      if disk.Dir? {
        journal, after, trail, fault := OpenDirectory(disk, log);
        return;
      }
      journal, after, trail, fault := None, disk, [], true;
      var created: bool := *;
      if !created {
        log.events := log.events + [Fault];
        assert Disks([]) + [Fault] == [Fault];
        return;
      }
      // The new directory entry is never synced in its parent.
      log.events := log.events + [DiskIs(NEW_DIRECTORY)];
      ghost var steps;
      journal, after, steps, fault := OpenDirectory(NEW_DIRECTORY, log);
      trail := [NEW_DIRECTORY] + steps;
      assert Disks(trail) == [DiskIs(NEW_DIRECTORY)] + Disks(steps);
      World.Assoc([DiskIs(NEW_DIRECTORY)], Disks(steps), Faults(!fault));
      World.Assoc(old(log.events), [DiskIs(NEW_DIRECTORY)], Disks(steps) + Faults(!fault));
    }

    /** Reads both entries of a directory and migrates a record left by the one-file format. */
    static method OpenDirectory(disk: Disk, ghost log: Log)
      returns (journal: Option<FileUncertaintyJournal>, after: Disk, ghost trail: seq<Disk>, ghost fault: bool)
      requires disk.Dir?
      modifies log
      ensures journal.Some? ==> fresh(journal.value) && journal.value.Valid()
      ensures journal.Some? ==> journal.value.disk == after && journal.value.log == log
      ensures Opened(disk, after, if journal.Some? then Some(journal.value.state) else None, trail, fault)
      ensures log.events == old(log.events) + (Disks(trail) + Faults(!fault))
    {
      journal, after, trail, fault := None, disk, [], false;
      assert Disks([]) + Faults(true) == [] && Disks([]) + Faults(false) == [Fault];
      var readable: bool := *;
      if !readable {
        fault := true;
        log.events := log.events + [Fault];
        return;
      }
      var snapshotRead := ReadState(disk.snapshot);
      if snapshotRead.Err? { return; }
      var markerRead := ReadState(disk.marker);
      if markerRead.Err? { return; }
      var snapshot, marker := snapshotRead.value, markerRead.value;
      if marker == Some(Clean) { return; }
      var state := if marker.Some? then marker.value else if snapshot.Some? then snapshot.value else Clean;
      var record := new FileUncertaintyJournal.Adopt(state, disk, log);
      ArmedReopensPending(disk);
      if marker.None? && snapshot.Some? && snapshot.value.Pending? {
        var ok, steps := record.Commit(Marker, state);
        CommitKeeps(disk, Marker, state, record.disk, ok, steps);
        after, trail, fault := record.disk, steps, !ok;
        if !ok { return; }
      }
      journal := Some(record);
    }

    /** The three calls that change the directory. */
    method RenameEntry(target: Entry, file: File)
      requires Valid()
      modifies this`disk, log
      ensures Valid() && disk == Renamed(old(disk), target, file)
      ensures log.events == old(log.events) + [DiskIs(disk)]
    {
      disk := Renamed(disk, target, file);
      log.events := log.events + [DiskIs(disk)];
    }

    method SyncDirectory()
      requires Valid()
      modifies this`disk, log
      ensures Valid() && disk == DirectorySynced(old(disk))
      ensures log.events == old(log.events) + [DiskIs(disk)]
    {
      disk := DirectorySynced(disk);
      log.events := log.events + [DiskIs(disk)];
    }

    method UnlinkMarker()
      requires Valid()
      modifies this`disk, log
      ensures Valid() && disk == MarkerUnlinked(old(disk))
      ensures log.events == old(log.events) + [DiskIs(disk)]
    {
      disk := MarkerUnlinked(disk);
      log.events := log.events + [DiskIs(disk)];
    }

    /** Replaces one entry: write a temporary, sync it, rename it, sync the directory. */
    method Commit(target: Entry, newState: JournalState) returns (ok: bool, ghost trail: seq<Disk>)
      requires Valid()
      modifies this`disk, log
      ensures Valid() && Committed(old(disk), target, newState, disk, ok, trail)
      ensures log.events == old(log.events) + (Disks(trail) + Faults(ok))
    {
      ok, trail := Replace(target, newState);
      if !ok {
        log.events := log.events + [Fault];
        World.Assoc(old(log.events), Disks(trail), [Fault]);
      }
    }

    method Replace(target: Entry, newState: JournalState) returns (ok: bool, ghost trail: seq<Disk>)
      requires Valid()
      modifies this`disk, log
      ensures Valid() && Committed(old(disk), target, newState, disk, ok, trail)
      ensures log.events == old(log.events) + Disks(trail)
    {
      ok, trail := false, [];
      var created: bool := *;
      if !created { return; }
      var temporary := File("", false);
      var trusted: bool := *;
      if !trusted { return; }
      var written: bool := *;
      if !written { return; }
      temporary := temporary.(content := EncodeState(newState));
      var fileSynced: bool := *;
      if !fileSynced { return; }
      temporary := temporary.(synced := true);
      var renamed: bool := *;
      if !renamed { return; }
      RenameEntry(target, temporary);
      trail := [disk];
      assert Disks(trail) == [DiskIs(disk)];
      var directorySynced: bool := *;
      if !directorySynced { return; }
      ghost var before := trail;
      SyncDirectory();
      trail := trail + [disk];
      assert Disks(trail) == Disks(before) + [DiskIs(disk)];
      ok := true;
    }

    /** Latches memory first, then publishes the marker and the snapshot. */
    method MarkPending(action: JournalAction) returns (ok: bool, ghost trail: seq<Disk>)
      requires Valid()
      modifies this, log
      ensures Valid() && state == Pending(action)
      ensures Marked(old(disk), action, disk, ok, trail)
      ensures log.events == old(log.events) + (Disks(trail) + Faults(ok))
    {
      ghost var before := disk;
      state := Pending(action);
      ok, trail := Commit(Marker, state);
      CommitKeeps(before, Marker, state, disk, ok, trail);
      if !ok { return; }
      ghost var between, first, steps := disk, trail, [];
      ok, steps := Commit(Snapshot, state);
      CommitKeeps(between, Snapshot, state, disk, ok, steps);
      trail := first + steps;
      LogBoth(old(log.events), first, steps, Faults(ok));
    }

    /** Publishes the clean snapshot while the marker still exists; the unsynced
        unlink of the marker is the last step and nothing fallible follows it. */
    method Clear() returns (ok: bool, ghost trail: seq<Disk>)
      requires Valid()
      modifies this, log
      ensures Valid() && Cleared(old(disk), disk, ok, trail)
      ensures state == if ok then Clean else old(state)
      ensures log.events == old(log.events) + (Disks(trail) + Faults(ok))
    {
      ghost var before := disk;
      ok, trail := Commit(Snapshot, Clean);
      CommitKeeps(before, Snapshot, Clean, disk, ok, trail);
      if !ok { return; }
      if disk.marker.now.Some? {
        ok := *;
        if !ok {
          log.events := log.events + [Fault];
          LogBoth(old(log.events), trail, [], [Fault]);
          assert trail + [] == trail;
          return;
        }
        ghost var first := trail;
        UnlinkMarker();
        trail := first + [disk];
        assert Disks([disk]) == [DiskIs(disk)];
        LogBoth(old(log.events), first, [disk], []);
      }
      state := Clean;
    }
  }

  lemma LogBoth(log: seq<Event>, first: seq<Disk>, steps: seq<Disk>, end: seq<Event>)
    ensures log + (Disks(first) + Faults(true)) + (Disks(steps) + end) == log + (Disks(first + steps) + end)
  {
    DisksConcat(first, steps);
  }
}
