/** The spool directory: what the running process sees, and what a power loss may leave.

    Every file name carries a sequence number and a suffix, so the directory is kept per
    sequence number.  `live` is what a directory listing shows now.  `views` holds every state
    the entries of that number may be found in after a power loss: changes of one name reach
    the disk in the order they were made, and each change made since the last directory sync
    may or may not have reached it.  */
module SpoolDisk {

  // 00..07.spool.tmp, 00..07.spool.active, 00..07.spool, quarantine/00..07.spool
  datatype Kind = Tmp | Active | Ready | Quarantined

  // `id` tells which call of Begin wrote the file; `whole` that its bytes were synced.
  datatype File = File(id: nat, whole: bool)

  type Entries = map<Kind, File>

  datatype Slot = Slot(live: Entries, views: set<Entries>, quarantineUnsynced: bool)

  type Disk = map<nat, Slot>

  const EMPTY_SLOT: Slot := Slot(map[], {map[]}, false)

  function At(disk: Disk, n: nat): Slot {
    if n in disk then disk[n] else EMPTY_SLOT
  }

  // A directory change not yet synced: the old views stay possible.
  function Change(disk: Disk, n: nat, entries: Entries): Disk {
    var slot := At(disk, n);
    disk[n := slot.(live := entries, views := slot.views + {entries})]
  }

  function Unlink(disk: Disk, n: nat, kind: Kind): Disk {
    Change(disk, n, At(disk, n).live - {kind})
  }

  function Rename(disk: Disk, n: nat, from: Kind, to: Kind): Disk
    requires from in At(disk, n).live
  {
    var live := At(disk, n).live;
    var moved := Change(disk, n, (live - {from})[to := live[from]]);
    if to == Quarantined then moved[n := moved[n].(quarantineUnsynced := true)] else moved
  }

  // A synced spool directory forgets the older views, except those of a move into the
  // quarantine directory that has not been synced itself.
  function SyncSlot(slot: Slot): Slot {
    if slot.quarantineUnsynced then slot else slot.(views := {slot.live})
  }

  function SyncMain(disk: Disk): Disk {
    map n | n in disk :: SyncSlot(disk[n])
  }

  function SyncQuarantine(disk: Disk): Disk {
    map n | n in disk :: disk[n].(quarantineUnsynced := false)
  }

  // What the disk may hold after the power came back.
  ghost predicate MayLeave(disk: Disk, left: map<nat, Entries>) {
    left.Keys == disk.Keys && forall n | n in disk :: left[n] in disk[n].views
  }

  function Remaining(left: map<nat, Entries>): Disk {
    map n | n in left :: Slot(left[n], {left[n]}, false)
  }
}
