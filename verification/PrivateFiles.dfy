/**
 * PrivateFiles.cs: WriteCore, which replaces a file through a flushed temporary one. A directory has the links
 * that are visible and the links that a crash would leave, and a file has the bytes that were flushed; between
 * those a crash may leave either link of a name, and any length of an unflushed file.
 */
module PrivateFiles {
  import opened Prelude

  datatype Inode = Inode(bytes: seq<int>, flushed: nat)

  datatype Disk = Disk(inodes: map<nat, Inode>, visible: map<string, nat>, durable: map<string, nat>)

  ghost predicate Settled(d: Disk) {
    && d.visible == d.durable
    && (forall i :: i in d.inodes ==> d.inodes[i].flushed <= |d.inodes[i].bytes|)
    && (forall n :: n in d.visible ==> d.visible[n] in d.inodes && d.inodes[d.visible[n]].flushed == |d.inodes[d.visible[n]].bytes|)
  }

  function Content(d: Disk, name: string): Option<seq<int>> {
    if name in d.visible && d.visible[name] in d.inodes then Some(d.inodes[d.visible[name]].bytes) else None
  }

  /** What a crash may leave of d. */
  ghost predicate Crashed(d: Disk, after: Disk) {
    && after.visible == after.durable
    && (forall n :: n in after.visible ==>
          (n in d.visible && after.visible[n] == d.visible[n]) || (n in d.durable && after.visible[n] == d.durable[n]))
    && (forall n :: n in d.visible && n in d.durable ==> n in after.visible)
    && after.inodes.Keys == d.inodes.Keys
    && (forall i :: i in d.inodes ==>
          after.inodes[i].flushed == |after.inodes[i].bytes| && after.inodes[i].bytes <= d.inodes[i].bytes
          && |after.inodes[i].bytes| >= d.inodes[i].flushed)
  }

  datatype Step = Created | Wrote(length: nat) | Flushed | Renamed | Synced

  function Filled(d: Disk, temporary: string, inode: nat, bytes: seq<int>, flushed: nat): Disk {
    d.(inodes := d.inodes[inode := Inode(bytes, flushed)], visible := d.visible[temporary := inode])
  }

  function Relinked(d: Disk, name: string, temporary: string, inode: nat): Disk {
    d.(visible := (d.visible - {temporary})[name := inode])
  }

  /** The disk after each step of one write of bytes to name; inode and temporary are fresh. */
  function At(d: Disk, name: string, temporary: string, inode: nat, bytes: seq<int>, step: Step): Disk {
    match step
    case Created => Filled(d, temporary, inode, [], 0)
    case Wrote(length) => Filled(d, temporary, inode, if length < |bytes| then bytes[..length] else bytes, 0)
    case Flushed => Filled(d, temporary, inode, bytes, |bytes|)
    case Renamed => Relinked(Filled(d, temporary, inode, bytes, |bytes|), name, temporary, inode)
    case Synced =>
      var renamed := Relinked(Filled(d, temporary, inode, bytes, |bytes|), name, temporary, inode);
      renamed.(durable := renamed.visible)
  }

  /**
   * Whatever step a crash interrupts, the file is its whole old or whole new value, every other file is as it
   * was, and after the last step it is the new value.
   */
  lemma WholeOldOrNew(d: Disk, name: string, temporary: string, inode: nat, bytes: seq<int>, step: Step, after: Disk)
    requires Settled(d) && inode !in d.inodes && temporary !in d.visible && temporary != name
    requires Crashed(At(d, name, temporary, inode, bytes, step), after)
    ensures Content(after, name) == Content(d, name) || Content(after, name) == Some(bytes)
    ensures step == Synced ==> Content(after, name) == Some(bytes)
    ensures forall n :: n != name && n != temporary ==> Content(after, n) == Content(d, n)
  {
    var now := At(d, name, temporary, inode, bytes, step);
    forall n | n != temporary && (n != name || (step != Renamed && step != Synced)) ensures Content(after, n) == Content(d, n) {
      Untouched(d, now, after, n);
    }
    if step == Renamed || step == Synced {
      Replaced(d, now, name, inode, bytes, after);
    }
  }

  /** And nothing is left under the temporary name. */
  lemma TemporaryGone(d: Disk, name: string, temporary: string, inode: nat, bytes: seq<int>, after: Disk)
    requires Settled(d) && inode !in d.inodes && temporary !in d.visible && temporary != name
    requires Crashed(At(d, name, temporary, inode, bytes, Synced), after)
    ensures temporary !in after.visible
  {
    var now := At(d, name, temporary, inode, bytes, Synced);
    assert temporary !in now.visible && temporary !in now.durable;
    hide At;
  }

  /** After the rename a crash leaves one link or the other, and both files are flushed. */
  lemma Replaced(d: Disk, now: Disk, name: string, inode: nat, bytes: seq<int>, after: Disk)
    requires Settled(d) && Crashed(now, after) && inode !in d.inodes && inode in now.inodes && now.inodes[inode] == Inode(bytes, |bytes|)
    requires forall i :: i in d.inodes ==> i in now.inodes && now.inodes[i] == d.inodes[i]
    requires name in now.visible && now.visible[name] == inode
    requires (name in now.durable && now.durable[name] == inode) || (name in now.durable <==> name in d.visible)
    requires name in now.durable ==> now.durable[name] == inode || (name in d.visible && now.durable[name] == d.visible[name])
    ensures Content(after, name) == Content(d, name) || Content(after, name) == Some(bytes)
    ensures name in now.durable && now.durable[name] == inode ==> Content(after, name) == Some(bytes)
  {
    assert after.inodes[inode].bytes == bytes;
    if name in after.visible && after.visible[name] != inode {
      assert after.inodes[d.visible[name]].bytes == d.inodes[d.visible[name]].bytes;
    }
  }

  lemma Untouched(d: Disk, now: Disk, after: Disk, n: string)
    requires Settled(d) && Crashed(now, after) && d.inodes.Keys <= now.inodes.Keys
    requires forall i :: i in d.inodes ==> now.inodes[i] == d.inodes[i]
    requires n in now.visible <==> n in d.visible
    requires n in now.durable <==> n in d.visible
    requires n in d.visible ==> now.visible[n] == d.visible[n] == now.durable[n]
    ensures Content(after, n) == Content(d, n)
  {
    if n in d.visible {
      var i := d.visible[n];
      assert after.visible[n] == i;
      assert after.inodes[i].bytes == d.inodes[i].bytes;
    }
  }

  /** The disk was only ever in the states of At, so WholeOldOrNew covers a crash anywhere in the write. */
  ghost predicate Passed(d: Disk, name: string, temporary: string, inode: nat, bytes: seq<int>, states: seq<Disk>) {
    forall i :: 0 <= i < |states| ==> states[i] == d || exists step :: states[i] == At(d, name, temporary, inode, bytes, step)
  }

  class Directory {
    var disk: Disk

    constructor (d: Disk)
      ensures disk == d
    {
      disk := d;
    }

    /** temporary and inode are the fresh name and file of this write; states lists what the disk went through. */
    method WriteCore(name: string, bytes: seq<int>, maximum: nat, temporary: string, inode: nat) returns (ok: bool, ghost states: seq<Disk>)
      requires inode !in disk.inodes && temporary !in disk.visible && temporary != name
      modifies this
      ensures ok <==> 1 <= maximum && |bytes| <= maximum && (Content(old(disk), name).Some? ==> |Content(old(disk), name).value| <= maximum)
      ensures disk == if ok then At(old(disk), name, temporary, inode, bytes, Synced) else old(disk)
      ensures Passed(old(disk), name, temporary, inode, bytes, states)
      ensures states != [] && states[|states| - 1] == disk
    {
      ghost var before := disk;
      states := [disk];
      if maximum < 1 || |bytes| > maximum {
        return false, states;
      }
      var existing := Content(disk, name);
      if existing.Some? && |existing.value| > maximum {
        return false, states;
      }
      disk := Filled(disk, temporary, inode, [], 0);
      assert disk == At(before, name, temporary, inode, bytes, Created);
      states := states + [disk];
      disk := disk.(inodes := disk.inodes[inode := Inode(bytes, 0)]);
      assert disk == At(before, name, temporary, inode, bytes, Wrote(|bytes|));
      states := states + [disk];
      disk := disk.(inodes := disk.inodes[inode := Inode(bytes, |bytes|)]);
      assert disk == At(before, name, temporary, inode, bytes, Flushed);
      states := states + [disk];
      disk := Relinked(disk, name, temporary, inode);
      assert disk == At(before, name, temporary, inode, bytes, Renamed);
      states := states + [disk];
      disk := disk.(durable := disk.visible);
      assert disk == At(before, name, temporary, inode, bytes, Synced);
      states := states + [disk];
      return true, states;
    }
  }

  /** Without the flush the same write could leave a cut file: the order of the steps is what protects it. */
  lemma FlushNeeded(d: Disk, name: string, temporary: string, inode: nat, bytes: seq<int>)
    requires Settled(d) && inode !in d.inodes && temporary !in d.visible && temporary != name && |bytes| > 1
    ensures exists after :: Content(after, name) == Some(bytes[..1]) && Crashed(Unflushed(d, name, temporary, inode, bytes), after)
  {
    var renamed := Unflushed(d, name, temporary, inode, bytes);
    var after := Disk(map i | i in renamed.inodes :: if i == inode then Inode(bytes[..1], 1)
                                                     else Inode(renamed.inodes[i].bytes, |renamed.inodes[i].bytes|),
                      renamed.visible, renamed.visible);
    assert after.inodes.Keys == renamed.inodes.Keys;
    assert renamed.inodes[inode] == Inode(bytes, 0);
    assert forall i :: i in renamed.inodes && i != inode ==> i in d.inodes && renamed.inodes[i] == d.inodes[i];
    hide Unflushed, Content;
    assert forall n :: n in renamed.visible && n in renamed.durable ==> n in after.visible;
    assert Crashed(renamed, after);
  }

  function Unflushed(d: Disk, name: string, temporary: string, inode: nat, bytes: seq<int>): Disk {
    Relinked(Filled(d, temporary, inode, bytes, 0), name, temporary, inode)
  }
}
