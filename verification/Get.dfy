/** `get`: rxd sends a declared number of bytes of a file that may change under it and
    looks at its length again; the client installs only a copy that passes every check
    (src/remote/serve.rs, src/bin/rx.rs). */
module Get {
  import opened Common
  import opened Streams
  import opened Disk
  import Octal

  // ---- The remote file -------------------------------------------------------

  /** One system call of rxd on the file: `advance` versions go by before it, and a read
      gives at most `give` bytes, or fails if that is 0. */
  datatype Tick = Tick(advance: nat, give: nat)

  /** A moment in the life of the file: the index of its current version, and the calls to come. */
  datatype Moment = Moment(now: nat, ticks: seq<Tick>)

  type History = vs: seq<seq<byte>> | vs != [] witness [[]]

  function Next(versions: History, m: Moment): (r: (Tick, Moment))
    ensures m.now < |versions| ==> m.now <= r.1.now < |versions|
  {
    if m.ticks == [] then (Tick(0, 8192), m)
    else (m.ticks[0], Moment(Min(m.now + m.ticks[0].advance, |versions| - 1), m.ticks[1..]))
  }

  datatype Body = Body(sent: seq<byte>, at: Moment, ok: bool)

  /** `io::copy` of the file bounded to `declared` bytes, from what was already sent. */
  function CopyBody(versions: History, m: Moment, declared: nat, sent: seq<byte>): (c: Body)
    requires m.now < |versions| && |sent| <= declared
    ensures m.now <= c.at.now < |versions| && |c.sent| <= declared
    decreases declared - |sent|
  {
    if |sent| == declared then Body(sent, m, true)
    else
      var (tick, at) := Next(versions, m);
      var content := versions[at.now];
      if tick.give == 0 then Body(sent, at, false)
      else if |content| <= |sent| then Body(sent, at, true)
      else
        var end := Min(|sent| + tick.give, Min(|content|, declared));
        CopyBody(versions, at, declared, sent + content[|sent|..end])
  }

  /** What rxd put on the wire, when it looked last, and whether it exits 0. */
  datatype Served = Served(declared: nat, body: seq<byte>, end: Moment, success: bool)

  function ServeGet(versions: History, m: Moment): Served
    requires m.now < |versions|
  {
    var declared := |versions[m.now]|;
    var copy := CopyBody(versions, m, declared, []);
    if !copy.ok || |copy.sent| != declared then Served(declared, copy.sent, copy.at, false)
    else
      var (tick, end) := Next(versions, copy.at);
      Served(declared, copy.sent, end, tick.give > 0 && |versions[end.now]| == declared)
  }

  /** The server's loop. */
  method Serve(versions: History, m: Moment) returns (r: Served)
    requires m.now < |versions|
    ensures r == ServeGet(versions, m)
  {
    var declared := |versions[m.now]|;
    var sent: seq<byte>, at := [], m;
    while |sent| < declared
      invariant |sent| <= declared && m.now <= at.now < |versions|
      invariant CopyBody(versions, at, declared, sent) == CopyBody(versions, m, declared, [])
    {
      var (tick, next) := Next(versions, at);
      at := next;
      if tick.give == 0 {
        return Served(declared, sent, at, false);
      }
      var content := versions[at.now];
      if |content| <= |sent| {
        break;
      }
      sent := sent + content[|sent|..Min(|sent| + tick.give, Min(|content|, declared))];
    }
    if |sent| != declared {
      return Served(declared, sent, at, false);
    }
    var (tick, end) := Next(versions, at);
    return Served(declared, sent, end, tick.give > 0 && |versions[end.now]| == declared);
  }

  ghost predicate AppendOnly(versions: History) {
    forall i, j :: 0 <= i <= j < |versions| ==> versions[i] <= versions[j]
  }

  ghost predicate ShrinkOnly(versions: History) {
    forall i, j :: 0 <= i <= j < |versions| ==> versions[j] <= versions[i]
  }

  /** Every byte sent stood at its place in some version of the window. */
  ghost predicate Woven(sent: seq<byte>, versions: History, from: nat, to: nat) {
    forall i :: 0 <= i < |sent| ==>
      exists t :: from <= t <= to && t < |versions| && i < |versions[t]| && versions[t][i] == sent[i]
  }

  lemma {:induction false} CopyIsWoven(versions: History, m: Moment, declared: nat, sent: seq<byte>, from: nat)
    requires from <= m.now < |versions| && |sent| <= declared && Woven(sent, versions, from, m.now)
    ensures var c := CopyBody(versions, m, declared, sent);
      Woven(c.sent, versions, from, c.at.now)
    decreases declared - |sent|
  {
    if |sent| < declared {
      var (tick, at) := Next(versions, m);
      var content := versions[at.now];
      if tick.give > 0 && |content| > |sent| {
        var end := Min(|sent| + tick.give, Min(|content|, declared));
        var more := sent + content[|sent|..end];
        forall i | 0 <= i < |more|
          ensures exists t :: from <= t <= at.now && t < |versions| && i < |versions[t]| && versions[t][i] == more[i]
        {
          if i < |sent| {
            assert more[i] == sent[i];
          } else {
            assert versions[at.now][i] == more[i];
          }
        }
        CopyIsWoven(versions, at, declared, more, from);
      }
    }
  }

  /** The file was the same at every moment of the read. */
  ghost predicate Unchanged(versions: History, from: nat, to: nat)
    requires from <= to < |versions|
  {
    forall t :: from <= t <= to ==> versions[t] == versions[from]
  }

  ghost predicate AlwaysIs(versions: History, from: nat, to: nat, body: seq<byte>)
    requires from <= to < |versions|
  {
    forall t :: from <= t <= to ==> versions[t] == body
  }

  /** A copy rxd vouches for is the content the file had at every moment of the read, exactly
      if the file was not rewritten meanwhile. */
  lemma VouchedIffNotRewritten(versions: History, m: Moment)
    requires m.now < |versions| && ServeGet(versions, m).success
    ensures var s := ServeGet(versions, m);
      && m.now <= s.end.now < |versions|
      && (AlwaysIs(versions, m.now, s.end.now, s.body) <==> Unchanged(versions, m.now, s.end.now))
  {
    var s := ServeGet(versions, m);
    CopyIsWoven(versions, m, s.declared, [], m.now);
    var last := CopyBody(versions, m, s.declared, []).at.now;
    if Unchanged(versions, m.now, s.end.now) {
      forall i | 0 <= i < |s.body|
        ensures s.body[i] == versions[m.now][i]
      {
        var t :| m.now <= t <= last && t < |versions| && i < |versions[t]| && versions[t][i] == s.body[i];
      }
      assert s.body == versions[m.now];
    }
  }

  /** A file that only grew or only shrank cannot have been rewritten unnoticed. */
  lemma VouchedCopyIsTheFile(versions: History, m: Moment)
    requires m.now < |versions| && ServeGet(versions, m).success
    requires AppendOnly(versions) || ShrinkOnly(versions)
    ensures var s := ServeGet(versions, m);
      m.now <= s.end.now < |versions| && AlwaysIs(versions, m.now, s.end.now, s.body)
  {
    var s := ServeGet(versions, m);
    VouchedIffNotRewritten(versions, m);
    forall t | m.now <= t <= s.end.now
      ensures versions[t] == versions[m.now]
    {
      assert |versions[t]| == s.declared;
    }
  }

  lemma {:induction false} StillCopy(versions: History, m: Moment, sent: seq<byte>, content: seq<byte>)
    requires m.now < |versions| && sent <= content && (forall v :: v in versions ==> v == content)
    requires forall t :: t in m.ticks ==> t.give > 0
    ensures var c := CopyBody(versions, m, |content|, sent);
      && c.ok && c.sent == content
      && (forall t :: t in c.at.ticks ==> t.give > 0)
    decreases |content| - |sent|
  {
    if |sent| < |content| {
      var (tick, at) := Next(versions, m);
      assert versions[at.now] in versions;
      var end := Min(|sent| + tick.give, |content|);
      assert sent + content[|sent|..end] == content[..end];
      StillCopy(versions, at, content[..end], content);
    }
  }

  /** A file that stands still is always served, whatever the read sizes. */
  lemma StillFileServed(versions: History, m: Moment, content: seq<byte>)
    requires m.now < |versions| && (forall v :: v in versions ==> v == content)
    requires forall t :: t in m.ticks ==> t.give > 0
    ensures ServeGet(versions, m).success && ServeGet(versions, m).body == content
  {
    assert versions[m.now] in versions;
    StillCopy(versions, m, [], content);
    var c := CopyBody(versions, m, |content|, []);
    assert versions[Next(versions, c.at).1.now] in versions;
  }

  /** Only length changes are noticed: a rewrite in place between two reads is vouched for,
      and the bytes sent are no version of the file. */
  lemma RewriteUnnoticed()
    ensures exists versions: History, m: Moment ::
      && m.now < |versions| && ServeGet(versions, m).success
      && ServeGet(versions, m).body !in versions
  {
    var versions: History := [[1, 1], [2, 2]];
    var m := Moment(0, [Tick(0, 1), Tick(1, 1), Tick(0, 1)]);
    var m1, m2 := Moment(0, m.ticks[1..]), Moment(1, m.ticks[2..]);
    assert Next(versions, m) == (Tick(0, 1), m1);
    assert Next(versions, m1) == (Tick(1, 1), m2);
    assert [] + versions[0][0..1] == [1];
    assert [1] + versions[1][1..2] == [1, 2];
    assert CopyBody(versions, m2, 2, [1, 2]) == Body([1, 2], m2, true);
    assert CopyBody(versions, m1, 2, [1]) == Body([1, 2], m2, true);
    assert CopyBody(versions, m, 2, []) == Body([1, 2], m2, true);
    assert ServeGet(versions, m).body == [1, 2] && ServeGet(versions, m).success;
    assert [1, 2] != versions[0] && [1, 2] != versions[1];
  }

  // ---- The client ------------------------------------------------------------

  const DRAIN_CAP := 65536
  const PRIVATE := 0x180  // 0600

  datatype Result =
    | Got(bytes: nat, mode: string)
    | IncompleteTransfer(expected: nat, got: nat)
    | FileChanged
    | LocalIo
    | BadMode
    | WaitFailed

  datatype Staged = Staged(tmp: Path, bytes: nat) | Short(got: nat) | Io

  function GetTemp(dir: string, suffix: string): Path {
    Path(dir, ".rxd-get-" + suffix + ".tmp")
  }

  /** Names tried before giving up. */
  const ATTEMPTS := 128

  predicate TempName(dir: string, suffixes: seq<string>, p: Path) {
    exists s :: s in suffixes && p == GetTemp(dir, s)
  }

  /** Create a private temp file under the first free name. */
  method CreateTemp(disk: FileSystem, dir: string, suffixes: seq<string>) returns (ok: bool, tmp: Path)
    requires |suffixes| == ATTEMPTS
    modifies disk
    ensures old(disk.past) <= disk.past && TempName(dir, suffixes, tmp)
    ensures OnlyTouched(disk.past, |old(disk.past)|, old(disk.files), tmp)
    ensures disk.files == if ok then old(disk.files)[tmp := File([], PRIVATE, None, None)] else old(disk.files)
    ensures ok ==> tmp !in old(disk.files)
    ensures disk.failedRemovals == old(disk.failedRemovals)
    ensures old(disk.faults) == [] ==>
      disk.faults == [] && (ok <==> exists s :: s in suffixes && GetTemp(dir, s) !in old(disk.files))
  {
    tmp := GetTemp(dir, suffixes[0]);
    for i := 0 to |suffixes|
      invariant old(disk.past) <= disk.past && disk.files == old(disk.files) && TempName(dir, suffixes, tmp)
      invariant forall k :: |old(disk.past)| <= k < |disk.past| ==> disk.past[k] == old(disk.files)
      invariant old(disk.faults) == [] ==> disk.faults == []
      invariant forall j :: 0 <= j < i ==> GetTemp(dir, suffixes[j]) in old(disk.files)
      invariant disk.failedRemovals == old(disk.failedRemovals)
    {
      tmp := GetTemp(dir, suffixes[i]);
      ok := disk.CreateNew(tmp, PRIVATE);
      if ok || tmp !in disk.files {
        return;
      }
    }
    return false, tmp;
  }

  /** `io::copy` of at most `size` bytes into the temp file. */
  method CopyBounded(disk: FileSystem, tmp: Path, src: Source, size: nat) returns (copied: Option<nat>)
    requires tmp in disk.files && disk.files[tmp].content == []
    modifies disk, src
    ensures Filling(disk, tmp) && EndsWell(src.script) == EndsWell(old(src.script))
    ensures copied.Some? ==>
      && disk.files[tmp].content + Bytes(src.script) == Bytes(old(src.script))
      && copied.value == |disk.files[tmp].content| <= size
      && (copied.value < size ==> Bytes(src.script) == [] && EndsWell(src.script))
    ensures old(disk.faults) == [] && (EndsWell(old(src.script)) || size <= |Bytes(old(src.script))|) ==> copied.Some?
  {
    assert Bytes([]) == [] && EndsWell([]);
    hide Bytes, EndsWell, Weight;
    var n := 0;
    while n < size
      invariant Filling(disk, tmp)
      invariant disk.files[tmp].content + Bytes(src.script) == Bytes(old(src.script))
      invariant EndsWell(src.script) == EndsWell(old(src.script))
      invariant n == |disk.files[tmp].content| <= size
      decreases Weight(src.script)
    {
      ghost var have := disk.files[tmp].content;
      var got := src.Read(Min(8192, size - n));
      match got
      case Got(bs) =>
        if bs == [] {
          break;
        }
        Assoc(have, bs, Bytes(src.script));
        var ok := disk.Append(tmp, bs);
        if !ok {
          return None;
        }
        n := n + |bs|;
      case ReadInterrupted =>
      case ReadFailed =>
        return None;
    }
    return Some(n);
  }

  /** Stream exactly `size` bytes into a temp file and sync it; any shortfall removes it. */
  method ReceiveToTemp(disk: FileSystem, src: Source, dir: string, suffixes: seq<string>, size: nat)
    returns (r: Staged, ghost tmp: Path)
    requires |suffixes| == ATTEMPTS
    modifies disk, src
    ensures old(disk.past) <= disk.past && TempName(dir, suffixes, tmp)
    ensures OnlyTouched(disk.past, |old(disk.past)|, old(disk.files), tmp)
    ensures old(disk.failedRemovals) <= disk.failedRemovals
    ensures r.Staged? ==> disk.failedRemovals == old(disk.failedRemovals)
    ensures !r.Staged? ==> Undone(disk.files, old(disk.files), tmp, disk.failedRemovals == old(disk.failedRemovals))
    ensures r.Short? ==> r.got == |Bytes(old(src.script))| < size && EndsWell(old(src.script))
    ensures r.Staged? ==>
      && r.tmp == tmp && tmp !in old(disk.files) && r.bytes == size <= |Bytes(old(src.script))|
      && disk.files == old(disk.files)[tmp := File(Bytes(old(src.script))[..size], PRIVATE, None, None)]
      && Bytes(src.script) == Bytes(old(src.script))[size..]
      && EndsWell(src.script) == EndsWell(old(src.script))
    ensures old(disk.faults) == [] && (exists s :: s in suffixes && GetTemp(dir, s) !in old(disk.files)) ==>
      && disk.faults == [] && disk.failedRemovals == old(disk.failedRemovals)
      && (size <= |Bytes(old(src.script))| ==> r.Staged?)
      && (size > |Bytes(old(src.script))| && EndsWell(old(src.script)) ==> r.Short?)
  {
    ghost var before := disk.files;
    var ok, path := CreateTemp(disk, dir, suffixes);
    tmp := path;
    if !ok {
      return Io, tmp;
    }
    ghost var base := disk.files;
    var copied := CopyBounded(disk, path, src, size);
    Restored(disk.files, base, before, path, File([], PRIVATE, None, None));
    if copied != Some(size) {
      disk.Remove(path);
      return if copied.Some? then Short(copied.value) else Io, tmp;
    }
    ok := disk.Sync();
    if !ok {
      disk.Remove(path);
      return Io, tmp;
    }
    return Staged(path, copied.value), tmp;
  }

  /** Whether anything follows the body: a bounded drain that counts a failed read as nothing. */
  method Drain(src: Source) returns (extra: bool)
    modifies src
    ensures extra <==> Bytes(old(src.script)) != []
                       && (EndsWell(old(src.script)) || DRAIN_CAP <= |Bytes(old(src.script))|)
  {
    var n := 0;
    while n < DRAIN_CAP
      invariant n <= DRAIN_CAP && n + |Bytes(src.script)| == |Bytes(old(src.script))|
      invariant EndsWell(src.script) == EndsWell(old(src.script))
      decreases Weight(src.script)
    {
      var got := src.Read(Min(8192, DRAIN_CAP - n));
      match got
      case Got(bs) =>
        if bs == [] {
          break;
        }
        n := n + |bs|;
      case ReadInterrupted =>
      case ReadFailed =>
        return false;
    }
    return n > 0;
  }

  /** chmod and rename; a failure removes the staged file. */
  method CommitTemp(disk: FileSystem, tmp: Path, dest: Path, mode: nat) returns (ok: bool)
    requires tmp in disk.files
    modifies disk
    ensures old(disk.past) <= disk.past
    ensures old(disk.failedRemovals) <= disk.failedRemovals
    ensures ok ==> && disk.files == (old(disk.files) - {tmp})[dest := old(disk.files[tmp]).(mode := mode)]
                   && disk.failedRemovals == old(disk.failedRemovals)
    ensures !ok && disk.failedRemovals == old(disk.failedRemovals) ==> disk.files == old(disk.files) - {tmp}
    ensures !ok && disk.failedRemovals != old(disk.failedRemovals) ==>
      tmp in disk.files && disk.files == old(disk.files)[tmp := disk.files[tmp]]
    ensures tmp != dest ==>
      OldOrFinished(disk.past, |old(disk.past)|, dest, old(disk.files), if ok then Some(disk.files[dest]) else None)
    ensures old(disk.faults) == [] ==> ok
  {
    ok := disk.SetMode(tmp, mode);
    if ok {
      ok := disk.Rename(tmp, dest);
    }
    if !ok {
      disk.Remove(tmp);
    }
  }

  /** What the client sees of one `get`: the header, then the stream, then how ssh exited
      (None when waiting for it failed). */
  datatype Download = Download(size: nat, mode: string, exit: Option<bool>)

  /** The body arrived whole, nothing was seen behind it, and rxd exited 0. */
  predicate Passes(script: seq<ReadEvent>, d: Download) {
    var n := |Bytes(script)|;
    d.exit == Some(true) && d.size <= n && (n == d.size || (!EndsWell(script) && n - d.size < DRAIN_CAP))
  }

  /** The first reason why a download does not pass. A stream that breaks off early looks like
      a local failure. */
  function Refusal(script: seq<ReadEvent>, d: Download): Result {
    var n := |Bytes(script)|;
    if Octal.ParseOctalMode(d.mode).None? then BadMode
    else if n < d.size then (if EndsWell(script) then IncompleteTransfer(d.size, n) else LocalIo)
    else if d.exit.None? then WaitFailed
    else FileChanged
  }

  ghost predicate LeftBehind(files: Snapshot, before: Snapshot, dir: string, suffixes: seq<string>, body: seq<byte>) {
    exists tmp ::
      TempName(dir, suffixes, tmp) && tmp !in before && files == before[tmp := File(body, PRIVATE, None, None)]
  }

  /** A failure leaves the disk as it was, except for one temp file if removing that failed. */
  ghost predicate GivenUp(files: Snapshot, before: Snapshot, dir: string, suffixes: seq<string>, removed: bool) {
    exists tmp :: TempName(dir, suffixes, tmp) && Undone(files, before, tmp, removed)
  }

  /** The client's half after the header. The destination changes only to the declared
      bytes with their mode, and only if every check passed; a temp file stays behind
      exactly when waiting for ssh or removing the file fails. */
  method FetchBody(disk: FileSystem, src: Source, dest: Path, suffixes: seq<string>, d: Download,
                   override: Option<nat>)
    returns (r: Result)
    requires |suffixes| == ATTEMPTS && !TempName(dest.dir, suffixes, dest)
    modifies disk, src
    ensures old(disk.past) <= disk.past
    ensures r.Got? ==>
      && Passes(old(src.script), d) && r.bytes == d.size
      && (override.Some? || Octal.ParseOctalMode(d.mode).Some?)
      && var mode := override.GetOr(Octal.ParseOctalMode(d.mode).GetOr(0));
      && r.mode == Octal.OctalMode(mode)
      && disk.files == old(disk.files)[dest := File(Bytes(old(src.script))[..d.size], mode, None, None)]
    ensures old(disk.failedRemovals) <= disk.failedRemovals
    ensures old(disk.faults) == [] || r.Got? || r.WaitFailed? ==> disk.failedRemovals == old(disk.failedRemovals)
    ensures !r.Got? && !r.WaitFailed? ==>
      GivenUp(disk.files, old(disk.files), dest.dir, suffixes, disk.failedRemovals == old(disk.failedRemovals))
    ensures r.WaitFailed? ==>
      && d.exit.None? && d.size <= |Bytes(old(src.script))|
      && LeftBehind(disk.files, old(disk.files), dest.dir, suffixes, Bytes(old(src.script))[..d.size])
    ensures OldOrFinished(disk.past, |old(disk.past)|, dest, old(disk.files),
                          if r.Got? then Some(disk.files[dest]) else None)
    ensures (old(disk.faults) == [] && exists s :: s in suffixes && GetTemp(dest.dir, s) !in old(disk.files)) ==>
      if Octal.ParseOctalMode(d.mode).Some? && Passes(old(src.script), d) then r.Got?
      else r == Refusal(old(src.script), d)
    ensures !r.Got? && !r.LocalIo? ==> r == Refusal(old(src.script), d)
  {
    var srcMode := Octal.ParseOctalMode(d.mode);
    assert TempName(dest.dir, suffixes, GetTemp(dest.dir, suffixes[0]));
    if srcMode.None? {
      return BadMode;
    }
    var applied := override.GetOr(srcMode.value);
    ghost var before, start := disk.files, |disk.past|;
    var staged, tmp := ReceiveToTemp(disk, src, dest.dir, suffixes, d.size);
    UntouchedTarget(disk.past, start, before, tmp, dest, before);
    match staged {
      case Short(got) => return IncompleteTransfer(d.size, got);
      case Io => return LocalIo;
      case Staged(path, bytes) =>
        var extra := Drain(src);
        if d.exit.None? {
          return WaitFailed;
        }
        if extra || !d.exit.value {
          disk.Remove(path);
          return FileChanged;
        }
        assert disk.files - {path} == before;
        var ok := CommitTemp(disk, path, dest, applied);
        return if ok then Result.Got(bytes, Octal.OctalMode(applied)) else LocalIo;
    }
  }

  /** `get` end to end. The stream carries a prefix of what rxd sent, and ssh reports
      success only if rxd exited 0. If the client installs anything it is the whole declared
      body, and it is the content the file had throughout exactly if the file was not
      rewritten meanwhile, which one that only grew or only shrank was not. */
  method Fetch(versions: History, m: Moment, fileMode: nat, disk: FileSystem, arrives: seq<ReadEvent>,
               exit: Option<bool>, dest: Path, suffixes: seq<string>, override: Option<nat>)
    returns (r: Result)
    requires m.now < |versions| && |suffixes| == ATTEMPTS && !TempName(dest.dir, suffixes, dest)
    requires Bytes(arrives) <= ServeGet(versions, m).body
    requires exit == Some(true) ==> ServeGet(versions, m).success
    modifies disk
    ensures old(disk.past) <= disk.past
    ensures OldOrFinished(disk.past, |old(disk.past)|, dest, old(disk.files),
                          if r.Got? then At(disk.files, dest) else None)
    ensures !r.Got? && !r.WaitFailed? ==>
      GivenUp(disk.files, old(disk.files), dest.dir, suffixes, disk.failedRemovals == old(disk.failedRemovals))
    ensures r.Got? ==>
      && dest in disk.files && disk.files[dest].content == ServeGet(versions, m).body
      && disk.files[dest].mode == override.GetOr(fileMode % 4096)
      && |ServeGet(versions, m).body| == |versions[m.now]|
    ensures (&& exit == Some(true) && Bytes(arrives) == ServeGet(versions, m).body && EndsWell(arrives)
             && old(disk.faults) == []
             && exists s :: s in suffixes && GetTemp(dest.dir, s) !in old(disk.files)) ==> r.Got?
    ensures r.Got? ==>
      && m.now <= ServeGet(versions, m).end.now < |versions|
      && (AlwaysIs(versions, m.now, ServeGet(versions, m).end.now, disk.files[dest].content)
          <==> Unchanged(versions, m.now, ServeGet(versions, m).end.now))
      && (AppendOnly(versions) || ShrinkOnly(versions) ==> Unchanged(versions, m.now, ServeGet(versions, m).end.now))
  {
    var served := Serve(versions, m);
    Octal.ModeRoundTrip(fileMode);
    var src := new Source(arrives);
    r := FetchBody(disk, src, dest, suffixes, Download(served.declared, Octal.OctalMode(fileMode), exit), override);
    if r.Got? {
      assert Bytes(arrives)[..served.declared] == served.body;
      VouchedIffNotRewritten(versions, m);
      if AppendOnly(versions) || ShrinkOnly(versions) {
        VouchedCopyIsTheFile(versions, m);
      }
    }
  }
}
