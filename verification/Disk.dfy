/** A filesystem seen by one program at a time: every operation may be made to fail, and
    every state the disk goes through is kept, so that a property of all of them holds
    whatever step the program crashes at. */
module Disk {
  import opened Common

  datatype Path = Path(dir: string, name: string)

  datatype File = File(content: seq<byte>, mode: nat, owner: Option<string>, group: Option<string>)

  type Snapshot = map<Path, File>

  /** A failing write may have stored some of its bytes. */
  datatype Outcome = Works | Fails(partial: nat)

  /** A path as an observer finds it. */
  function At(files: Snapshot, p: Path): Option<File> {
    if p in files then Some(files[p]) else None
  }

  /** Two states that differ at most in one path. */
  predicate SameBut(a: Snapshot, b: Snapshot, p: Path) {
    a - {p} == b - {p}
  }

  lemma Restored(a: Snapshot, base: Snapshot, before: Snapshot, p: Path, f: File)
    requires SameBut(a, base, p) && p !in before && base == before[p := f]
    ensures a - {p} == before
    ensures p in a ==> a == before[p := a[p]]
  {
    assert base - {p} == before;
    assert forall q :: q in a && q != p ==> q in a - {p};
  }

  /** What a failure leaves: the disk as it was, or, if the temp file could not be removed,
      that one file more. */
  ghost predicate Undone(files: Snapshot, before: Snapshot, tmp: Path, removed: bool) {
    if removed then files == before else tmp !in before && tmp in files && files == before[tmp := files[tmp]]
  }

  /** Every state recorded from `from` on differs from `base` at most in `p`. */
  ghost predicate OnlyTouched(past: seq<Snapshot>, from: nat, base: Snapshot, p: Path) {
    forall k :: from <= k < |past| ==> SameBut(past[k], base, p)
  }

  /** Every state a crash could leave: the target is as before, or it is the finished file. */
  ghost predicate OldOrFinished(past: seq<Snapshot>, from: nat, path: Path, before: Snapshot, finished: Option<File>) {
    forall k :: from <= k < |past| ==>
      At(past[k], path) == At(before, path) || (finished.Some? && At(past[k], path) == finished)
  }

  lemma UntouchedTarget(past: seq<Snapshot>, from: nat, base: Snapshot, tmp: Path, path: Path, before: Snapshot)
    requires OnlyTouched(past, from, base, tmp) && tmp != path && At(base, path) == At(before, path)
    ensures OldOrFinished(past, from, path, before, None)
  {
    forall k | from <= k < |past|
      ensures At(past[k], path) == At(before, path)
    {
      assert SameBut(past[k], base, tmp);
      assert path in past[k] <==> path in past[k] - {tmp};
      assert path in base <==> path in base - {tmp};
    }
  }

  class FileSystem {
    var files: Snapshot
    /** Outcomes of the next operations; the ones past its end work. */
    var faults: seq<Outcome>
    ghost var past: seq<Snapshot>
    ghost var failedRemovals: nat

    constructor (files: Snapshot, faults: seq<Outcome>)
      ensures this.files == files && this.faults == faults && past == [] && failedRemovals == 0
    {
      this.files, this.faults, past, failedRemovals := files, faults, [], 0;
    }

    method NextOutcome() returns (o: Outcome)
      modifies `faults
      ensures o == if old(faults) == [] then Works else old(faults)[0]
      ensures faults == if old(faults) == [] then [] else old(faults)[1..]
    {
      o := Works;
      if faults != [] {
        o, faults := faults[0], faults[1..];
      }
    }

    /** Exclusive create: an existing name is an error. */
    method CreateNew(p: Path, mode: nat) returns (ok: bool)
      modifies `files, `faults, `past
      ensures past == old(past) + [files] && (old(faults) == [] ==> faults == [])
      ensures ok ==> p !in old(files) && files == old(files)[p := File([], mode, None, None)]
      ensures !ok ==> files == old(files)
      ensures old(faults) == [] ==> ok == (p !in old(files))
    {
      var o := NextOutcome();
      ok := o.Works? && p !in files;
      if ok {
        files := files[p := File([], mode, None, None)];
      }
      past := past + [files];
    }

    method Append(p: Path, bytes: seq<byte>) returns (ok: bool)
      requires p in files
      modifies `files, `faults, `past
      ensures past == old(past) + [files] && (old(faults) == [] ==> faults == [] && ok)
      ensures p in files && files == old(files)[p := files[p]]
      ensures files[p] == old(files[p]).(content := files[p].content)
      ensures ok ==> files[p].content == old(files[p].content) + bytes
    {
      var o := NextOutcome();
      var n := match o case Works => |bytes| case Fails(k) => Min(k, |bytes|);
      ok := o.Works?;
      files := files[p := files[p].(content := files[p].content + bytes[..n])];
      past := past + [files];
    }

    method SetMode(p: Path, mode: nat) returns (ok: bool)
      requires p in files
      modifies `files, `faults, `past
      ensures past == old(past) + [files] && (old(faults) == [] ==> faults == [] && ok)
      ensures files == if ok then old(files)[p := old(files[p]).(mode := mode)] else old(files)
    {
      var o := NextOutcome();
      ok := o.Works?;
      if ok {
        files := files[p := files[p].(mode := mode)];
      }
      past := past + [files];
    }

    method SetOwner(p: Path, owner: Option<string>, group: Option<string>) returns (ok: bool)
      requires p in files
      modifies `files, `faults, `past
      ensures past == old(past) + [files] && (old(faults) == [] ==> faults == [] && ok)
      ensures files == if ok then old(files)[p := Owned(old(files[p]), owner, group)] else old(files)
    {
      var o := NextOutcome();
      ok := o.Works?;
      if ok {
        files := files[p := Owned(files[p], owner, group)];
      }
      past := past + [files];
    }

    method Stat(p: Path) returns (f: Option<File>)
      requires p in files
      modifies `faults
      ensures f.Some? ==> f.value == files[p]
      ensures old(faults) == [] ==> faults == [] && f.Some?
    {
      var o := NextOutcome();
      f := if o.Works? then Some(files[p]) else None;
    }

    method Sync() returns (ok: bool)
      modifies `faults
      ensures old(faults) == [] ==> faults == [] && ok
    {
      var o := NextOutcome();
      ok := o.Works?;
    }

    /** Atomic: observers see the old file or the new one. */
    method Rename(from: Path, to: Path) returns (ok: bool)
      requires from in files
      modifies `files, `faults, `past
      ensures past == old(past) + [files] && (old(faults) == [] ==> faults == [] && ok)
      ensures files == if ok then (old(files) - {from})[to := old(files[from])] else old(files)
    {
      var o := NextOutcome();
      ok := o.Works?;
      if ok {
        files := (files - {from})[to := files[from]];
      }
      past := past + [files];
    }

    /** The callers do not look at the result; a failure leaves the file where it is. */
    method Remove(p: Path)
      modifies this
      ensures past == old(past) + [files]
      ensures old(faults) == [] ==> faults == [] && failedRemovals == old(failedRemovals)
      ensures old(failedRemovals) <= failedRemovals
      ensures files == if failedRemovals == old(failedRemovals) then old(files) - {p} else old(files)
    {
      var o := NextOutcome();
      if o.Works? {
        files := files - {p};
      } else {
        failedRemovals := failedRemovals + 1;
      }
      past := past + [files];
    }
  }

  const SET_UID := 2048    // 04000
  const SET_GID := 1024    // 02000
  const GROUP_EXEC := 8    // 00010

  predicate Has(mode: nat, bit: nat)
    requires bit > 0
  {
    mode / bit % 2 == 1
  }

  /** On Linux a `chown` takes the set-user-id bit of a file, and the set-group-id bit of one
      that its group may execute. */
  function AfterChown(mode: nat): (m: nat)
    ensures m == mode <==> !Has(mode, SET_UID) && !(Has(mode, SET_GID) && Has(mode, GROUP_EXEC))
  {
    (if Has(mode, SET_UID) then mode - SET_UID else mode)
    - (if Has(mode, SET_GID) && Has(mode, GROUP_EXEC) then SET_GID else 0)
  }

  /** `chown` with either half left alone. */
  function Owned(f: File, owner: Option<string>, group: Option<string>): File {
    f.(owner := if owner.Some? then owner else f.owner, group := if group.Some? then group else f.group,
       mode := if owner.Some? || group.Some? then AfterChown(f.mode) else f.mode)
  }

  /** What a fill leaves behind: only the temp file's content has moved. */
  twostate predicate Filling(disk: FileSystem, tmp: Path)
    reads disk
  {
    && old(disk.past) <= disk.past
    && OnlyTouched(disk.past, |old(disk.past)|, old(disk.files), tmp)
    && SameBut(disk.files, old(disk.files), tmp)
    && (old(disk.faults) == [] ==> disk.faults == [])
    && disk.failedRemovals == old(disk.failedRemovals)
    && tmp in old(disk.files) && tmp in disk.files
    && disk.files[tmp] == old(disk.files)[tmp].(content := disk.files[tmp].content)
  }
}
