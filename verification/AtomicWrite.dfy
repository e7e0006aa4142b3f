/** The atomic write of the quarantine record on Linux (host_v1.py, `_atomic_write_text`), on a disk that may lose
    power between any two steps. What has not been synced by then reads back as anything; directory changes reach
    the disk in order, each of them whole. */
module AtomicWrite {
  import opened Commons

  type Bytes = seq<bv8>
  type Directory = map<string, nat>

  /** The record's directory and its files. `durable` holds every state the directory may have after a power loss:
      those since it was last synced. `anchored` says that the way to the directory itself is on the disk; a power loss
      before that may take the whole directory. */
  datatype Disk = Disk(
    present: bool, anchored: bool,
    directory: Directory, durable: set<Directory>, content: map<nat, Bytes>, synced: set<nat>, next: nat)

  ghost predicate Consistent(d: Disk) {
    && d.directory in d.durable && (d.anchored ==> d.present) && (!d.present ==> d.durable == {map[]})
    && (forall n | n in d.content :: n < d.next) && (forall n | n in d.synced :: n in d.content)
    && forall e, name | e in d.durable && name in e :: e[name] in d.content
  }

  /** Whatever state survives, the file there is one whose bytes have reached the disk. */
  ghost predicate Solid(d: Disk, path: string) {
    Consistent(d) && forall e | e in d.durable && path in e :: e[path] in d.synced
  }

  function ReadIn(d: Disk, e: Directory, path: string): Option<Bytes> {
    if path in e && e[path] in d.content then Some(d.content[e[path]]) else None
  }

  /** What `path` reads as now, for the next process. */
  function Current(d: Disk, path: string): Option<Bytes> { ReadIn(d, d.directory, path) }

  /** What `path` may read as after a power loss, for a solid path. */
  function Survivors(d: Disk, path: string): set<Option<Bytes>> {
    (set e | e in d.durable :: ReadIn(d, e, path)) + Loss(d)
  }

  /** Losing the directory leaves no record. */
  function Loss(d: Disk): set<Option<Bytes>> { if d.anchored then {} else {None} }

  // ---- the steps ---------------------------------------------------------

  function Without(e: Directory, name: string): (rest: Directory)
    ensures forall other :: other in rest <==> other in e && other != name
    ensures forall other | other in rest :: rest[other] == e[other]
  {
    e - {name}
  }

  /** `mkdir(parents=True, exist_ok=True)`: nothing syncs the entry of the new directory in its own parent. */
  function Rooted(d: Disk): Disk { d.(present := true) }

  function Created(d: Disk, name: string): Disk {
    var directory := d.directory[name := d.next];
    d.(directory := directory, durable := d.durable + {directory}, content := d.content[d.next := []], next := d.next + 1)
  }

  function Appended(d: Disk, n: nat, bytes: Bytes): Disk
    requires n in d.content
  {
    d.(content := d.content[n := d.content[n] + bytes], synced := d.synced - {n})
  }

  function Synced(d: Disk, n: nat): Disk { d.(synced := d.synced + {n}) }

  function Renamed(d: Disk, from: string, to: string): Disk
    requires from in d.directory
  {
    var directory := Without(d.directory[to := d.directory[from]], from);
    d.(directory := directory, durable := d.durable + {directory})
  }

  function DirectorySynced(d: Disk): Disk { d.(durable := {d.directory}) }

  function Unlinked(d: Disk, name: string): Disk {
    var directory := Without(d.directory, name);
    d.(directory := directory, durable := d.durable + {directory})
  }

  /** The file under construction: nothing that survives under `path` is this file. */
  ghost predicate Apart(d: Disk, path: string, n: nat) {
    n in d.content && forall e | e in d.durable && path in e :: e[path] != n
  }

  /** Nothing changed for `path`. */
  ghost predicate Untouched(d: Disk, after: Disk, path: string) {
    && Solid(after, path) && Survivors(after, path) == Survivors(d, path) && Current(after, path) == Current(d, path)
    && after.anchored == d.anchored
  }

  lemma SurvivorsAgree(d: Disk, after: Disk, path: string)
    requires d.directory in d.durable && (after.durable == d.durable || after.durable == d.durable + {after.directory})
    requires forall e | e in d.durable :: ReadIn(after, e, path) == ReadIn(d, e, path)
    requires ReadIn(after, after.directory, path) == ReadIn(d, d.directory, path) && after.anchored == d.anchored
    ensures Survivors(after, path) == Survivors(d, path)
  {
    hide ReadIn;
    assert Loss(after) == Loss(d);
    hide Loss;
    forall r
      ensures r in Survivors(after, path) <==> r in Survivors(d, path)
    {
      if r in Survivors(after, path) && r !in Loss(d) {
        var e :| e in after.durable && ReadIn(after, e, path) == r;
        assert ReadIn(d, if e in d.durable then e else d.directory, path) == r;
      }
      if r in Survivors(d, path) && r !in Loss(d) {
        var e :| e in d.durable && ReadIn(d, e, path) == r;
        assert e in after.durable;
      }
    }
  }

  /** A step that leaves what every surviving directory says of the path, and adds at most one that says the same. */
  lemma SameReadings(d: Disk, after: Disk, path: string)
    requires Solid(d, path) && Consistent(after)
    requires after.durable == d.durable || after.durable == d.durable + {after.directory}
    requires forall e | e in d.durable :: ReadIn(after, e, path) == ReadIn(d, e, path)
    requires ReadIn(after, after.directory, path) == ReadIn(d, d.directory, path) && after.anchored == d.anchored
    requires forall e | e in after.durable && path in e :: e[path] in after.synced
    ensures Untouched(d, after, path)
  {
    hide ReadIn, Survivors, Consistent;
    assert d.directory in d.durable by { DirectoryIsDurable(d); }
    SurvivorsAgree(d, after, path);
  }

  lemma DirectoryIsDurable(d: Disk)
    requires Consistent(d)
    ensures d.directory in d.durable
  {
  }

  lemma RootKeeps(d: Disk, path: string)
    requires Solid(d, path)
    ensures Untouched(d, Rooted(d), path)
  {
    SameReadings(d, Rooted(d), path);
  }

  lemma CreateKeeps(d: Disk, path: string, name: string)
    requires Solid(d, path) && name != path && d.present
    ensures Untouched(d, Created(d, name), path) && Apart(Created(d, name), path, d.next)
    ensures Created(d, name).content[d.next] == [] && name in Created(d, name).directory
  {
    hide Untouched, Survivors;
    var after := Created(d, name);
    assert forall e | e in d.durable && path in e :: e[path] < d.next;
    assert ReadIn(d, d.directory, path) == ReadIn(after, after.directory, path);
    SameReadings(d, after, path);
  }

  lemma UnlinkKeeps(d: Disk, path: string, name: string)
    requires Solid(d, path) && name != path
    ensures Untouched(d, Unlinked(d, name), path)
  {
    hide Untouched, Survivors, Without;
    var after := Unlinked(d, name);
    assert ReadIn(d, d.directory, path) == ReadIn(after, after.directory, path);
    SameReadings(d, after, path);
  }

  lemma UnlinkRemoves(d: Disk, name: string)
    ensures name !in Unlinked(d, name).directory
  {
  }

  lemma AppendKeeps(d: Disk, path: string, n: nat, bytes: Bytes)
    requires Solid(d, path) && Apart(d, path, n)
    ensures Untouched(d, Appended(d, n, bytes), path) && Apart(Appended(d, n, bytes), path, n)
  {
    SameReadings(d, Appended(d, n, bytes), path);
  }

  lemma SyncKeeps(d: Disk, path: string, n: nat)
    requires Solid(d, path) && Apart(d, path, n)
    ensures Untouched(d, Synced(d, n), path) && Apart(Synced(d, n), path, n)
  {
    SameReadings(d, Synced(d, n), path);
  }

  /** The rename of a synced file adds its content, whole, to what may survive. */
  lemma RenameAdds(d: Disk, path: string, name: string)
    requires Solid(d, path) && name != path && name in d.directory && d.directory[name] in d.synced
    ensures var after, written := Renamed(d, name, path), Some(d.content[d.directory[name]]);
            && Solid(after, path) && Current(after, path) == written && name !in after.directory
            && Survivors(after, path) == Survivors(d, path) + {written} && after.anchored == d.anchored
  {
    var after, written := Renamed(d, name, path), Some(d.content[d.directory[name]]);
    forall e | e in d.durable
      ensures ReadIn(after, e, path) == ReadIn(d, e, path)
    {
    }
    assert ReadIn(after, after.directory, path) == written;
    forall r
      ensures r in Survivors(after, path) <==> r in Survivors(d, path) + {written}
    {
    }
  }

  lemma DirectorySyncSettles(d: Disk, path: string)
    requires Solid(d, path)
    ensures Solid(DirectorySynced(d), path) && Survivors(DirectorySynced(d), path) == {Current(d, path)} + Loss(d)
    ensures Current(DirectorySynced(d), path) == Current(d, path) && DirectorySynced(d).directory == d.directory
  {
  }

  // ---- the write ---------------------------------------------------------

  /** The volume and its operations. `fails` says which calls raise OSError, `partial` how many bytes each `write`
      takes. `moments` are the states in which the power can be cut. */
  class Volume {
    const fails: nat -> bool
    const partial: nat -> nat
    var disk: Disk
    var calls: nat
    ghost var moments: seq<Disk>

    constructor (disk: Disk, fails: nat -> bool, partial: nat -> nat)
      ensures this.disk == disk && moments == [disk]
    {
      this.disk, this.fails, this.partial := disk, fails, partial;
      calls := 0;
      moments := [disk];
    }

    /** None of these calls raised. */
    ghost predicate AllWorked(from: nat, to: nat) { forall n | from <= n < to :: !fails(n) }

    /** One call of the operating system that changes the disk to `after`, or fails and changes nothing. */
    method Step(after: Disk) returns (ok: bool)
      modifies this
      ensures disk == (if ok then after else old(disk)) && moments == old(moments) + [disk]
      ensures calls == old(calls) + 1 && (ok <==> !fails(old(calls)))
    {
      ok := !fails(calls);
      calls := calls + 1;
      if ok { disk := after; }
      moments := moments + [disk];
    }

    /** Writing a buffer takes as many calls as it takes; the power can be cut after each. */
    method WriteOut(path: string, n: nat, bytes: Bytes) returns (done: nat)
      requires Solid(disk, path) && Apart(disk, path, n) && n in disk.content
      modifies this
      ensures done <= |bytes|
      ensures old(calls) <= calls && (done == |bytes| <==> AllWorked(old(calls), calls))
      ensures Untouched(old(disk), disk, path) && Apart(disk, path, n)
      ensures disk.directory == old(disk).directory && n in disk.content
      ensures disk.content[n] == old(disk.content[n]) + bytes[..done]
      ensures old(moments) <= moments && forall d | d in moments[|old(moments)|..] :: Untouched(old(disk), d, path)
    {
      hide Solid, Survivors, Current, Apart, Untouched;
      done := 0;
      UntouchedSame(disk, path);
      while done < |bytes|
        invariant done <= |bytes|
        invariant old(calls) <= calls && AllWorked(old(calls), calls)
        invariant Untouched(old(disk), disk, path) && Apart(disk, path, n)
        invariant disk.directory == old(disk).directory && n in disk.content
        invariant disk.content[n] == old(disk.content[n]) + bytes[..done]
        invariant old(moments) <= moments && forall d | d in moments[|old(moments)|..] :: Untouched(old(disk), d, path)
      {
        var rest := |bytes| - done;
        var taken := if partial(calls) == 0 then 1 else if partial(calls) > rest then rest else partial(calls);
        ghost var before := disk;
        UntouchedSolid(old(disk), before, path);
        AppendKeeps(before, path, n, bytes[done..done + taken]);
        var ok := Step(Appended(disk, n, bytes[done..done + taken]));
        if !ok { return; }
        UntouchedTwice(old(disk), before, disk, path);
        assert bytes[..done] + bytes[done..done + taken] == bytes[..done + taken];
        done := done + taken;
      }
    }

    /** The temporary file, created, written and synced. */
    method Fill(path: string, tmp: string, text: Bytes) returns (ok: bool, n: nat)
      requires Solid(disk, path) && tmp != path && disk.present
      modifies this
      ensures Untouched(old(disk), disk, path) && old(moments) <= moments
      ensures forall d | d in moments[|old(moments)|..] :: Untouched(old(disk), d, path)
      ensures ok ==> tmp in disk.directory && disk.directory[tmp] == n && Holds(disk, n, text)
      ensures old(calls) <= calls && (ok <==> tmp !in old(disk.directory) && AllWorked(old(calls), calls))
    {
      hide Solid, Survivors, Current, Appended, Apart, Untouched;
      ghost var before := disk;
      n := disk.next;
      UntouchedSame(before, path);
      CreateKeeps(disk, path, tmp);
      // O_EXCL: a file of that name makes the call fail.
      ok := tmp !in disk.directory;
      if !ok { return; }
      ok := Step(Created(disk, tmp));
      if !ok { return; }
      ghost var created := disk;
      UntouchedSolid(before, created, path);
      ApartHolds(created, path, n);
      var done := WriteOut(path, n, text);
      ghost var filled := disk;
      UntouchedEach(before, created, moments[|old(moments)| + 1..], path);
      UntouchedTwice(before, created, filled, path);
      UntouchedSolid(before, filled, path);
      ok := done == |text|;
      if !ok {
        // Closing the file flushes what is left once more.
        var _ := WriteOut(path, n, text[done..]);
        UntouchedEach(before, filled, moments[|old(moments)| + 1..], path);
        UntouchedTwice(before, filled, disk, path);
        return;
      }
      assert text[..done] == text && [] + text == text;
      SyncKeeps(filled, path, n);
      ok := Step(Synced(disk, n));
      if ok { UntouchedTwice(before, filled, disk, path); }
    }

    /** The rename of the finished file and the sync of its directory. */
    method Replace(ghost before: Disk, path: string, tmp: string, n: nat, ghost text: Bytes)
        returns (ok: bool, replaced: bool)
      requires Solid(before, path) && Untouched(before, disk, path) && tmp != path
      requires tmp in disk.directory && disk.directory[tmp] == n && Holds(disk, n, text)
      modifies this
      ensures old(moments) <= moments && forall d | d in moments[|old(moments)|..] :: OldOrNew(before, d, path, text)
      ensures old(calls) < calls && (ok <==> AllWorked(old(calls), calls)) && (ok ==> replaced)
      ensures ok ==> Survivors(disk, path) == {Some(text)} + Loss(before)
      ensures replaced && !ok ==> Survivors(disk, path) == Survivors(before, path) + {Some(text)}
      ensures replaced ==> Current(disk, path) == Some(text) && tmp !in disk.directory
      ensures !replaced ==> disk == old(disk)
    {
      hide Solid, Survivors, Current, Renamed, DirectorySynced, Unlinked, Untouched, Holds, OldOrNew, Loss;
      UntouchedIsOld(before, disk, path, text);
      UntouchedSolid(before, disk, path);
      HoldsText(disk, n, text);
      RenameAdds(disk, path, tmp);
      SameLoss(before, disk);
      ReadsBetween(before, Renamed(disk, tmp, path), path, text);
      ok := Step(Renamed(disk, tmp, path));
      replaced := ok;
      if !ok { return; }
      DirectorySyncSettles(disk, path);
      SameLoss(before, disk);
      LossSurvives(before, path);
      ReadsBetween(before, DirectorySynced(disk), path, text);
      // Opening the directory.
      ok := Step(disk);
      if ok { ok := Step(DirectorySynced(disk)); }
    }

    /** The unlinking after a failure, whose own failure is ignored. */
    method Discard(ghost before: Disk, path: string, tmp: string, ghost text: Bytes)
      requires Untouched(before, disk, path) && tmp != path
      modifies this
      ensures Untouched(before, disk, path) && OldOrNew(before, disk, path, text)
      ensures moments == old(moments) + [disk] && calls == old(calls) + 1
      ensures tmp in disk.directory ==> fails(old(calls))
    {
      hide Solid, Survivors, Current, Unlinked, Untouched, OldOrNew;
      UntouchedSolid(before, disk, path);
      UnlinkKeeps(disk, path, tmp);
      UnlinkRemoves(disk, tmp);
      UntouchedTwice(before, disk, Unlinked(disk, tmp), path);
      UntouchedIsOld(before, Unlinked(disk, tmp), path, text);
      UntouchedIsOld(before, disk, path, text);
      var _ := Step(Unlinked(disk, tmp));
    }

    /** `_atomic_write_text` for a path and the name of its temporary file. Wherever the power is cut, the path reads
        as it could before or as the whole new text. It succeeds exactly when the temporary name is free and no call
        raises; otherwise the temporary file stays behind only if its unlinking, the last call, raises as well. On success only the new text is left, except that a directory not
        yet on the disk may still be lost with it; on a failure nothing has changed for the path unless the rename had
        already gone through. */
    method AtomicWriteText(path: string, tmp: string, text: Bytes) returns (ok: bool, replaced: bool)
      requires Solid(disk, path) && tmp != path && moments == [disk]
      modifies this
      ensures forall d | d in moments :: OldOrNew(old(disk), d, path, text)
      ensures ok ==> replaced && Current(disk, path) == Some(text)
                     && Survivors(disk, path) == {Some(text)} + if old(disk).anchored then {} else {None}
      ensures old(calls) < calls && (ok <==> tmp !in old(disk.directory) && AllWorked(old(calls), calls))
      ensures ok || replaced ==> tmp !in disk.directory
      ensures !replaced && tmp in disk.directory ==> fails(calls - 1)
      ensures !ok && replaced ==> && Current(disk, path) == Some(text)
                                  && Survivors(disk, path) == Survivors(old(disk), path) + {Some(text)}
      ensures !replaced ==> Untouched(old(disk), disk, path)
    {
      hide Solid, Survivors, Current, Renamed, DirectorySynced, Unlinked, Untouched, Holds, OldOrNew;
      ghost var before := disk;
      var n;
      replaced := false;
      UntouchedSame(before, path);
      RootKeeps(before, path);
      UntouchedIsOld(before, before, path, text);
      UntouchedIsOld(before, Rooted(before), path, text);
      ok := Step(Rooted(disk));
      if !ok { return; }
      UntouchedSolid(before, disk, path);
      ok, n := Fill(path, tmp, text);
      ghost var filled := disk;
      UntouchedTwice(before, Rooted(before), filled, path);
      UntouchedSolid(before, filled, path);
      UntouchedEach(before, Rooted(before), moments[2..], path);
      forall d | d in moments
        ensures OldOrNew(before, d, path, text)
      {
        if d in moments[2..] { UntouchedIsOld(before, d, path, text); }
        assert d == moments[0] || d == moments[1] || d in moments[2..];
      }
      UntouchedIsOld(before, filled, path, text);
      if ok { ok, replaced := Replace(before, path, tmp, n, text); }
      if !replaced { Discard(before, path, tmp, text); }
    }
  }

  /** What the path reads as, now and after a power loss: what it could before, or the whole text. */
  ghost predicate OldOrNew(before: Disk, d: Disk, path: string, text: Bytes) {
    && Solid(d, path) && Survivors(d, path) <= Survivors(before, path) + {Some(text)}
    && Current(d, path) in {Current(before, path), Some(text)}
  }

  lemma SameLoss(before: Disk, d: Disk)
    requires d.anchored == before.anchored
    ensures Loss(d) == Loss(before)
  {
  }

  lemma LossSurvives(d: Disk, path: string)
    ensures Loss(d) <= Survivors(d, path)
  {
  }

  lemma UntouchedIsOld(before: Disk, d: Disk, path: string, text: Bytes)
    requires Untouched(before, d, path)
    ensures OldOrNew(before, d, path, text)
  {
  }

  lemma ReadsBetween(before: Disk, d: Disk, path: string, text: Bytes)
    requires Solid(d, path) && Survivors(d, path) <= Survivors(before, path) + {Some(text)} && Current(d, path) == Some(text)
    ensures OldOrNew(before, d, path, text)
  {
  }

  /** The file's bytes are the text and have reached the disk. */
  ghost predicate Holds(d: Disk, n: nat, text: Bytes) {
    n in d.content && d.content[n] == text && n in d.synced
  }

  lemma HoldsText(d: Disk, n: nat, text: Bytes)
    requires Holds(d, n, text)
    ensures n in d.content && d.content[n] == text && n in d.synced
  {
  }

  lemma ApartHolds(d: Disk, path: string, n: nat)
    requires Apart(d, path, n)
    ensures n in d.content
  {
  }

  lemma UntouchedSame(d: Disk, path: string)
    requires Solid(d, path)
    ensures Untouched(d, d, path)
  {
  }

  lemma UntouchedSolid(d: Disk, after: Disk, path: string)
    requires Untouched(d, after, path)
    ensures Solid(after, path) && Survivors(after, path) == Survivors(d, path) && Current(after, path) == Current(d, path)
    ensures after.anchored == d.anchored
  {
  }

  lemma UntouchedEach(d: Disk, e: Disk, moments: seq<Disk>, path: string)
    requires Untouched(d, e, path)
    requires forall f | f in moments :: Untouched(d, f, path) || Untouched(e, f, path)
    ensures forall f | f in moments :: Untouched(d, f, path)
  {
  }

  lemma UntouchedTwice(d: Disk, e: Disk, f: Disk, path: string)
    requires Untouched(d, e, path) && Untouched(e, f, path)
    ensures Untouched(d, f, path)
  {
  }
}