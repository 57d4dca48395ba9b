/**
 What the outside world can observe, in the order in which it happens.  Every primitive that
 touches the disk, a device or the network appends to one shared log at the moment it acts;
 nothing else does, so the log is the real order of effects and a crash cuts it at a prefix.
 */
module World {
  import opened Wrappers
  import Pairing
  import Backend

  // ---------------------------------------------------------------- the disk

  datatype File = File(content: string, synced: bool)

  /** One directory entry: its current value and the older values a host crash may restore. */
  datatype Slot = Slot(now: Option<File>, past: set<Option<File>>) {
    ghost predicate MayBe(version: Option<File>) { version == now || version in past }
  }

  /** `anchored` says that the application directory's own entry in its parent is durable. */
  datatype Disk = Missing | Dir(marker: Slot, snapshot: Slot, anchored: bool)

  // ---------------------------------------------------------------- the log

  datatype Role = Enter | BroadcastStart | AuraOn | AuraOff | BroadcastStop | Exit

  type Byte = b: int | 0 <= b < 256

  type Packet = seq<Byte>

  /** A little-endian sixteen-bit number. */
  function Word(low: int, high: int): int { low + 256 * high }

  /** `Write` is logged when a role write begins, everything else when it has happened.
      `Answered` is a JBL role answer of success, `GattReply` a packet on the broadcaster's bearer,
      `Probe` a look at the Aura bearer, and `Fault` a call that failed. */
  datatype Event =
    | DiskIs(disk: Disk)
    | MembershipRead(answer: Option<Pairing.GroupResponse>, jbl: Pairing.Identity, aura: Pairing.Identity)
    | HealthRead(health: Backend.Health)
    | Teardown | ColdConnect | Arm
    | Write(role: Role)
    | Answered(role: Role) | GattReply(packet: Packet)
    | Probe(alive: bool) | Arrived(packet: Packet) | Received(packet: Packet) | QueueEmpty
    | Subscribed | Code(code: Option<int>) | Unsubscribed
    | Fault

  /** What a call adds to the log when it ends. */
  function Faults(ok: bool): seq<Event> { if ok then [] else [Fault] }

  class Log {
    ghost var events: seq<Event>

    constructor ()
      ensures events == []
    {
      events := [];
    }
  }

  lemma Assoc<T>(a: seq<T>, b: seq<T>, c: seq<T>)
    ensures a + b + c == a + (b + c)
  {
  }

  predicate HasWrite(events: seq<Event>) {
    exists i :: 0 <= i < |events| && events[i].Write?
  }

  /** A membership read whose answer is the enabled group of exactly the two configured devices. */
  predicate ReadyRead(e: Event) {
    e.MembershipRead? && e.answer.Some? && Pairing.ExactPair(e.answer.value, e.jbl, e.aura)
  }

  /** Events of the backend: it never touches the journal and never reads the membership. */
  predicate OfBackend(events: seq<Event>) {
    forall i :: 0 <= i < |events| ==> !events[i].DiskIs? && !events[i].MembershipRead? && !events[i].HealthRead?
  }

  /** Backend events that no device sees as a command. */
  predicate Silent(events: seq<Event>) {
    forall i :: 0 <= i < |events| ==>
      !IsDevice(events[i]) && !events[i].DiskIs? && !events[i].MembershipRead? && !events[i].HealthRead?
  }

  // ---------------------------------------------------------------- projections

  predicate IsDevice(e: Event) { e.Teardown? || e.ColdConnect? || e.Arm? || e.Write? }

  /** The device-facing events of a log, in order. */
  function Devices(events: seq<Event>): seq<Event> {
    if events == [] then []
    else
      var last := events[|events| - 1];
      Devices(events[..|events| - 1]) + (if IsDevice(last) then [last] else [])
  }

  lemma {:induction false} DevicesConcat(a: seq<Event>, b: seq<Event>)
    ensures Devices(a + b) == Devices(a) + Devices(b)
  {
    if b == [] {
      assert a + b == a;
    } else {
      var front, last := b[..|b| - 1], b[|b| - 1];
      assert (a + b)[..|a + b| - 1] == a + front;
      DevicesConcat(a, front);
    }
  }

  lemma {:induction false} DevicesAreSilent(events: seq<Event>)
    requires forall i :: 0 <= i < |events| ==> !IsDevice(events[i])
    ensures Devices(events) == []
  {
    if events != [] { DevicesAreSilent(events[..|events| - 1]); }
  }

  lemma {:induction false} DevicesAreAll(events: seq<Event>)
    requires forall i :: 0 <= i < |events| ==> IsDevice(events[i])
    ensures Devices(events) == events
  {
    if events != [] {
      DevicesAreAll(events[..|events| - 1]);
      assert events == events[..|events| - 1] + [events[|events| - 1]];
    }
  }

  /** The projection loses no write. */
  lemma {:induction false} DevicesKeepWrites(events: seq<Event>)
    ensures HasWrite(events) <==> HasWrite(Devices(events))
  {
    if events != [] {
      var front, last := events[..|events| - 1], events[|events| - 1];
      DevicesKeepWrites(front);
      assert events == front + [last];
      WritesConcat(front, [last]);
      WritesConcat(Devices(front), if IsDevice(last) then [last] else []);
    }
  }

  lemma WritesConcat(a: seq<Event>, b: seq<Event>)
    ensures HasWrite(a + b) <==> HasWrite(a) || HasWrite(b)
  {
    if i :| 0 <= i < |a| && a[i].Write? { assert (a + b)[i].Write?; }
    if i :| 0 <= i < |b| && b[i].Write? { assert (a + b)[|a| + i].Write?; }
  }

  // ---------------------------------------------------------------- the disk of a log

  function Disks(trail: seq<Disk>): (events: seq<Event>)
    ensures |events| == |trail| && forall i :: 0 <= i < |trail| ==> events[i] == DiskIs(trail[i])
  {
    seq(|trail|, i requires 0 <= i < |trail| => DiskIs(trail[i]))
  }

  lemma DisksConcat(a: seq<Disk>, b: seq<Disk>)
    ensures Disks(a + b) == Disks(a) + Disks(b)
  {
  }

  /** The disk after a log: the last one it mentions. */
  function DiskAfter(disk: Disk, events: seq<Event>): Disk {
    if events == [] then disk
    else
      var last := events[|events| - 1];
      if last.DiskIs? then last.disk else DiskAfter(disk, events[..|events| - 1])
  }

  lemma {:induction false} DiskAfterConcat(disk: Disk, a: seq<Event>, b: seq<Event>)
    ensures DiskAfter(disk, a + b) == DiskAfter(DiskAfter(disk, a), b)
  {
    if b == [] {
      assert a + b == a;
    } else {
      assert (a + b)[..|a + b| - 1] == a + b[..|b| - 1];
      DiskAfterConcat(disk, a, b[..|b| - 1]);
    }
  }

  lemma {:induction false} DiskUntouched(disk: Disk, events: seq<Event>)
    requires forall i :: 0 <= i < |events| ==> !events[i].DiskIs?
    ensures DiskAfter(disk, events) == disk
  {
    if events != [] { DiskUntouched(disk, events[..|events| - 1]); }
  }
}
