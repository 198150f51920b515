/**
 Crash-safe file replacement.

 A file's bytes live in inodes; data written but not synced may turn into anything
 after a crash, and the directory may come back in any of the states it went through
 since the last boot, because a rename is never synced. `write`, `flush`, `sync_all`
 and `rename` are separate steps, each of which may fail or be the last one before
 the power goes.
 */
module Persist {
  import opened Common

  type Bytes = seq<int>

  /** `stable`: every byte is on stable storage. */
  datatype Inode = Inode(cache: Bytes, stable: bool)

  /** What the two names of interest refer to. */
  datatype Names = Names(dest: Option<nat>, tmp: Option<nat>)

  /** `names` is the directory's history since boot, newest last; `handle` the open temporary file and `buffer` the writer's own bytes. */
  datatype Disk = Disk(inodes: map<nat, Inode>, names: seq<Names>, next: nat, handle: Option<nat>, buffer: Bytes)

  function Current(d: Disk): Names
    requires d.names != []
  {
    d.names[|d.names| - 1]
  }

  /** Open the temporary file, truncating one left behind by an earlier attempt. */
  function Create(d: Disk): Disk
    requires d.names != []
  {
    var now := Current(d);
    if now.tmp.Some? then
      d.(inodes := d.inodes[now.tmp.value := Inode([], false)], handle := now.tmp, buffer := [])
    else
      d.(inodes := d.inodes[d.next := Inode([], false)],
         names := d.names + [now.(tmp := Some(d.next))],
         next := d.next + 1, handle := Some(d.next), buffer := [])
  }

  predicate Open(d: Disk) {
    d.handle.Some? && d.handle.value in d.inodes
  }

  /** Append `bytes` to the open file; they are cached, not stable. */
  function Spill(d: Disk, bytes: Bytes): Disk
    requires Open(d)
  {
    var i := d.handle.value;
    d.(inodes := d.inodes[i := Inode(d.inodes[i].cache + bytes, false)])
  }

  /** Write a chunk; the buffer may hand any part of its front to the system. */
  function Write(d: Disk, chunk: Bytes, spilled: nat): Disk
    requires Open(d)
  {
    var all := d.buffer + chunk;
    var n := if spilled > |all| then |all| else spilled;
    Spill(d, all[..n]).(buffer := all[n..])
  }

  function Flush(d: Disk): Disk
    requires Open(d)
  {
    Spill(d, d.buffer).(buffer := [])
  }

  function Sync(d: Disk): Disk
    requires Open(d)
  {
    d.(inodes := d.inodes[d.handle.value := d.inodes[d.handle.value].(stable := true)])
  }

  function Rename(d: Disk): Disk
    requires d.names != []
  {
    d.(names := d.names + [Names(Current(d).tmp, None)], handle := None, buffer := [])
  }

  /** A failed step drops the writer, which may still hand its buffer to the system. */
  function Abandon(d: Disk): Disk {
    (if Open(d) then Flush(d) else d).(handle := None, buffer := [])
  }

  /** What the destination holds for running programs. */
  function Visible(d: Disk): Option<Bytes>
    requires d.names != []
  {
    var dest := Current(d).dest;
    if dest.Some? && dest.value in d.inodes then Some(d.inodes[dest.value].cache) else None
  }

  /** What the destination may hold after a crash now. */
  ghost predicate MayHold(d: Disk, c: Option<Bytes>) {
    exists j :: 0 <= j < |d.names| && MayHoldAt(d, d.names[j], c)
  }

  ghost predicate MayHoldAt(d: Disk, n: Names, c: Option<Bytes>) {
    if n.dest.None? || n.dest.value !in d.inodes then c.None?
    else if d.inodes[n.dest.value].stable then c == Some(d.inodes[n.dest.value].cache)
    else c.Some?
  }

  /**
   A destination, now or in an earlier directory state, is stable and neither open nor
   the current temporary file; and no directory state gives a file both names.
   */
  ghost predicate Safe(d: Disk) {
    && d.names != []
    && (forall j :: 0 <= j < |d.names| && d.names[j].dest.Some? ==>
          && d.names[j].dest.value in d.inodes
          && d.names[j].dest.value < d.next
          && d.inodes[d.names[j].dest.value].stable
          && d.handle != d.names[j].dest
          && Current(d).tmp != d.names[j].dest)
    && (forall j :: 0 <= j < |d.names| && d.names[j].tmp.Some? ==>
          d.names[j].tmp.value in d.inodes && d.names[j].tmp.value < d.next && d.names[j].tmp != d.names[j].dest)
    && (d.handle.Some? ==> d.handle == Current(d).tmp)
  }

  /** A step on the temporary file changes nothing about the destination. */
  ghost predicate SameDestination(d: Disk, n: Disk) {
    && d.names != []
    && Safe(n)
    && Visible(n) == Visible(d)
    && forall c :: MayHold(n, c) <==> MayHold(d, c)
  }

  /** Rewriting an inode that is no destination in any directory state is invisible. */
  lemma OtherInode(d: Disk, i: nat, node: Inode)
    requires Safe(d) && forall j :: 0 <= j < |d.names| ==> d.names[j].dest != Some(i)
    ensures var n := d.(inodes := d.inodes[i := node]);
            Safe(n) && Visible(n) == Visible(d) && forall c :: MayHold(n, c) <==> MayHold(d, c)
  {
    var n := d.(inodes := d.inodes[i := node]);
    forall c
      ensures MayHold(n, c) <==> MayHold(d, c)
    {
      assert forall j :: 0 <= j < |d.names| ==> (MayHoldAt(n, d.names[j], c) <==> MayHoldAt(d, d.names[j], c));
    }
  }

  lemma CreateSafe(d: Disk)
    requires Safe(d)
    ensures SameDestination(d, Create(d)) && Open(Create(d)) && Create(d).inodes[Create(d).handle.value].cache == []
  {
    var now, n := Current(d), Create(d);
    if now.tmp.Some? {
      OtherInode(d, now.tmp.value, Inode([], false));
    } else {
      forall c
        ensures MayHold(n, c) <==> MayHold(d, c)
      {
        if MayHold(d, c) {
          var j :| 0 <= j < |d.names| && MayHoldAt(d, d.names[j], c);
          assert n.names[j] == d.names[j] && MayHoldAt(n, n.names[j], c);
        }
        if MayHold(n, c) {
          var j :| 0 <= j < |n.names| && MayHoldAt(n, n.names[j], c);
          assert MayHoldAt(d, d.names[if j < |d.names| then j else |d.names| - 1], c);
        }
      }
    }
  }

  lemma SpillSafe(d: Disk, bytes: Bytes)
    requires Safe(d) && Open(d)
    ensures SameDestination(d, Spill(d, bytes)) && Open(Spill(d, bytes))
  {
    OtherInode(d, d.handle.value, Inode(d.inodes[d.handle.value].cache + bytes, false));
  }

  lemma SyncSafe(d: Disk)
    requires Safe(d) && Open(d)
    ensures SameDestination(d, Sync(d)) && Open(Sync(d)) && Sync(d).inodes[d.handle.value].stable
  {
    OtherInode(d, d.handle.value, d.inodes[d.handle.value].(stable := true));
  }

  /** Closing the writer or changing its buffer concerns no file. */
  lemma DetachSafe(d: Disk, handle: Option<nat>, buffer: Bytes)
    requires Safe(d) && (handle.None? || handle == d.handle)
    ensures SameDestination(d, d.(handle := handle, buffer := buffer))
  {
    var n := d.(handle := handle, buffer := buffer);
    forall c
      ensures MayHold(n, c) <==> MayHold(d, c)
    {
      assert forall j :: 0 <= j < |d.names| ==> (MayHoldAt(n, d.names[j], c) <==> MayHoldAt(d, d.names[j], c));
    }
  }

  lemma AbandonSafe(d: Disk)
    requires Safe(d)
    ensures SameDestination(d, Abandon(d)) && Abandon(d).handle.None?
  {
    if Open(d) {
      SpillSafe(d, d.buffer);
      DetachSafe(Spill(d, d.buffer), None, []);
    } else {
      DetachSafe(d, None, []);
    }
  }

  /** Renaming a synced file makes it visible and adds exactly its contents to what a crash may leave. */
  lemma RenameSafe(d: Disk)
    requires Safe(d) && Open(d) && d.inodes[d.handle.value].stable
    ensures var n := Rename(d);
            var full := Some(d.inodes[d.handle.value].cache);
            Safe(n) && Visible(n) == full && forall c :: MayHold(n, c) <==> MayHold(d, c) || c == full
  {
    var n, full := Rename(d), Some(d.inodes[d.handle.value].cache);
    forall c
      ensures MayHold(n, c) <==> MayHold(d, c) || c == full
    {
      if MayHold(d, c) {
        var j :| 0 <= j < |d.names| && MayHoldAt(d, d.names[j], c);
        assert n.names[j] == d.names[j] && MayHoldAt(n, n.names[j], c);
      }
      if c == full {
        assert MayHoldAt(n, n.names[|d.names|], c);
      }
      if MayHold(n, c) {
        var j :| 0 <= j < |n.names| && MayHoldAt(n, n.names[j], c);
        assert j < |d.names| ==> MayHoldAt(d, d.names[j], c);
      }
    }
  }

  /** Without the sync, a crash right after the rename may leave anything. */
  lemma UnsyncedRenameMayLoseEverything(d: Disk, junk: Bytes)
    requires Safe(d) && Open(d) && !d.inodes[d.handle.value].stable
    ensures MayHold(Rename(d), Some(junk))
  {
    var n := Rename(d);
    assert MayHoldAt(n, n.names[|d.names|], Some(junk));
  }

  /** The machine comes back with one of the directory states and, for unsynced files, arbitrary bytes. */
  ghost predicate Reboots(d: Disk, n: Disk) {
    && (exists j :: 0 <= j < |d.names| && n.names == [d.names[j]])
    && n.next == d.next && n.handle.None? && n.buffer == []
    && n.inodes.Keys == d.inodes.Keys
    && (forall i :: i in d.inodes ==> n.inodes[i].stable && (d.inodes[i].stable ==> n.inodes[i].cache == d.inodes[i].cache))
  }

  /** After a reboot the destination holds one of the contents it might have held, and is safe again. */
  lemma RebootSafe(d: Disk, n: Disk)
    requires Safe(d) && Reboots(d, n)
    ensures Safe(n) && MayHold(d, Visible(n)) && forall c :: MayHold(n, c) <==> c == Visible(n)
  {
    var j :| 0 <= j < |d.names| && n.names == [d.names[j]];
    assert MayHoldAt(d, d.names[j], Visible(n));
    forall c
      ensures MayHold(n, c) <==> c == Visible(n)
    {
      assert MayHoldAt(n, n.names[0], Visible(n));
    }
  }

  function Concat(chunks: seq<Bytes>): Bytes {
    if chunks == [] then [] else Concat(chunks[..|chunks| - 1]) + chunks[|chunks| - 1]
  }

  /** The disk, as `replace_file` changes it. */
  class FileSystem {
    var inodes: map<nat, Inode>
    var names: seq<Names>
    var next: nat
    var handle: Option<nat>
    var buffer: Bytes

    function View(): Disk
      reads this
    {
      Disk(inodes, names, next, handle, buffer)
    }

    method OpenTmp()
      requires Safe(View())
      modifies this
      ensures SameDestination(old(View()), View()) && Open(View())
      ensures inodes[handle.value].cache + buffer == []
    {
      CreateSafe(View());
      var d := Create(View());
      inodes, names, next, handle, buffer := d.inodes, d.names, d.next, d.handle, d.buffer;
    }

    method WriteChunk(chunk: Bytes, spilled: nat)
      requires Safe(View()) && Open(View())
      modifies this`inodes, this`buffer
      ensures SameDestination(old(View()), View()) && Open(View())
      ensures inodes[handle.value].cache + buffer == old(inodes[handle.value].cache + buffer) + chunk
    {
      var d := Write(View(), chunk, spilled);
      ghost var all := buffer + chunk;
      ghost var n := if spilled > |all| then |all| else spilled;
      SpillSafe(View(), all[..n]);
      DetachSafe(Spill(View(), all[..n]), handle, all[n..]);
      inodes, buffer := d.inodes, d.buffer;
    }

    method FlushBuffer()
      requires Safe(View()) && Open(View())
      modifies this`inodes, this`buffer
      ensures SameDestination(old(View()), View()) && Open(View())
      ensures inodes[handle.value].cache == old(inodes[handle.value].cache + buffer)
    {
      SpillSafe(View(), buffer);
      DetachSafe(Spill(View(), buffer), handle, []);
      var d := Flush(View());
      inodes, buffer := d.inodes, d.buffer;
    }

    method SyncAll()
      requires Safe(View()) && Open(View())
      modifies this`inodes
      ensures SameDestination(old(View()), View()) && Open(View())
      ensures inodes[handle.value] == Inode(old(inodes[handle.value].cache), true)
    {
      SyncSafe(View());
      inodes := Sync(View()).inodes;
    }

    method GiveUp()
      requires Safe(View())
      modifies this
      ensures SameDestination(old(View()), View()) && handle.None?
    {
      AbandonSafe(View());
      var d := Abandon(View());
      inodes, names, next, handle, buffer := d.inodes, d.names, d.next, d.handle, d.buffer;
    }

    method RenameOver()
      requires Safe(View()) && Open(View()) && inodes[handle.value].stable
      modifies this`names, this`handle, this`buffer
      ensures Safe(View()) && handle.None?
      ensures Visible(View()) == Some(old(inodes[handle.value].cache))
      ensures forall c :: MayHold(View(), c) <==> MayHold(old(View()), c) || c == Some(old(inodes[handle.value].cache))
    {
      RenameSafe(View());
      names := names + [Names(names[|names| - 1].tmp, None)];
      handle, buffer := None, [];
    }

    /** Create, write, flush and sync the temporary file, stopping after `budget` steps. */
    method Prepare(chunks: seq<Bytes>, spills: seq<nat>, budget: nat) returns (ok: bool)
      requires Safe(View()) && |spills| == |chunks|
      modifies this
      ensures SameDestination(old(View()), View())
      ensures ok <==> budget >= |chunks| + 3
      ensures ok ==> Open(View()) && inodes[handle.value] == Inode(Concat(chunks), true)
    {
      ok := false;
      if budget == 0 { return; }
      OpenTmp();
      for i := 0 to |chunks|
        invariant SameDestination(old(View()), View()) && Open(View())
        invariant inodes[handle.value].cache + buffer == Concat(chunks[..i])
        invariant budget >= i + 1
      {
        assert chunks[..i + 1][..i] == chunks[..i];
        if budget == i + 1 { return; }
        WriteChunk(chunks[i], spills[i]);
      }
      assert chunks[..|chunks|] == chunks;
      if budget == |chunks| + 1 { return; }
      FlushBuffer();
      if budget == |chunks| + 2 { return; }
      SyncAll();
      ok := true;
    }

    /**
     `replace_file` with the chunks its `write` closure produces. The step after
     `budget` successful ones fails; power may be lost at any of them. Whatever happens,
     a crash afterwards leaves the destination as it might have been before or with the
     complete new contents, and running programs see the new contents exactly on success.
     */
    method ReplaceFile(chunks: seq<Bytes>, spills: seq<nat>, budget: nat) returns (ok: bool)
      requires Safe(View()) && |spills| == |chunks|
      modifies this
      ensures Safe(View()) && handle.None?
      ensures ok <==> budget >= |chunks| + 4
      ensures Visible(View()) == if ok then Some(Concat(chunks)) else Visible(old(View()))
      ensures forall c :: MayHold(View(), c) <==> MayHold(old(View()), c) || (ok && c == Some(Concat(chunks)))
    {
      ok := Prepare(chunks, spills, budget);
      if !ok || budget == |chunks| + 3 {
        GiveUp();
        return false;
      }
      RenameOver();
    }
  }
}
