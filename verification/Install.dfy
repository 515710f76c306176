/** Installing a request body atomically (src/remote/actions.rs): stream it to a private
    temp file beside the target, apply mode and owner, rename. */
module Install {
  import opened Common
  import opened Streams
  import opened Disk
  import Framing
  import Octal

  datatype ErrorCode = BadRequest | Internal | IncompleteTransfer | EmptyStream | Unsupported | LocalIo

  datatype Response =
    | Copied(path: Path, bytes: nat, mode: Option<string>)
    | Error(code: ErrorCode)

  /** A target as the path splits: no file name for "/" or a path ending in "..". */
  datatype Target = Target(dir: string, name: Option<string>)

  /** The attributes asked for. */
  datatype Attributes = Attributes(mode: Option<nat>, owner: Option<string>, group: Option<string>)

  /** How the receiver knows that a body is whole: by its declared size, or by its framing. */
  datatype Body = Sized(size: Option<nat>) | Framed(allowEmpty: bool)

  datatype Filled = Stored(n: nat) | Refused(code: ErrorCode)

  /** The payload of a body that may be installed, or the reason it may not, as a function
      of the bytes that arrive and of whether their stream ended or broke. */
  datatype Verdict = Accept(content: seq<byte>, n: nat) | Reject(code: ErrorCode)

  function Judge(body: Body, arrived: seq<byte>, endsWell: bool): Verdict {
    match body
    case Sized(size) =>
      if !endsWell then Reject(Internal)
      else if size.Some? && |arrived| != size.value then Reject(IncompleteTransfer)
      else Accept(arrived, |arrived|)
    case Framed(allowEmpty) =>
      var d := Framing.Decode(arrived, 0, 0);
      var n := Framing.Wrap64(|d.payload|);
      match d.verdict
      case Truncated => Reject(if endsWell then IncompleteTransfer else Internal)
      case BadTotal => Reject(IncompleteTransfer)
      case BadLength => Reject(IncompleteTransfer)
      case Complete => if n == 0 && !allowEmpty then Reject(EmptyStream) else Accept(d.payload, n)
  }

  function TempPath(dir: string, suffix: string): Path {
    Path(dir, ".rxd-put-" + suffix + ".tmp")
  }

  const PRIVATE := 0x180  // 0600

  /** The file an accepted body becomes. */
  function Finished(content: seq<byte>, a: Attributes): File {
    Owned(File(content, a.mode.GetOr(PRIVATE), None, None), a.owner, a.group)
  }

  /** It is as asked for, but for set-id bits, which do not survive a change of owner or group:
      the mode is the one requested if and only if neither is asked for or no bit is at stake. */
  lemma FinishedAsAsked(content: seq<byte>, a: Attributes)
    ensures var f, mode := Finished(content, a), a.mode.GetOr(PRIVATE);
      && f.content == content && f.owner == a.owner && f.group == a.group
      && (f.mode == mode <==>
            || (a.owner.None? && a.group.None?)
            || (!Has(mode, SET_UID) && !(Has(mode, SET_GID) && Has(mode, GROUP_EXEC))))
  {
  }

  /** `io::copy` of a sized body, then the size check. */
  method FillSized(disk: FileSystem, tmp: Path, src: Source, size: Option<nat>) returns (r: Filled)
    requires tmp in disk.files && disk.files[tmp].content == []
    modifies disk, src
    ensures Filling(disk, tmp)
    ensures var v := Judge(Sized(size), Bytes(old(src.script)), EndsWell(old(src.script)));
      && (r.Stored? ==> v == Accept(disk.files[tmp].content, r.n))
      && (old(disk.faults) == [] ==> r == if v.Accept? then Stored(v.n) else Refused(v.code))
  {
    var copied := 0;
    while true
      invariant Filling(disk, tmp)
      invariant disk.files[tmp].content + Bytes(src.script) == Bytes(old(src.script))
      invariant EndsWell(src.script) == EndsWell(old(src.script))
      invariant copied == |disk.files[tmp].content|
      decreases Weight(src.script)
    {
      ghost var have := disk.files[tmp].content;
      var got := src.Read(8192);
      match got
      case Got(bs) =>
        if bs == [] {
          break;
        }
        Assoc(have, bs, Bytes(src.script));
        var ok := disk.Append(tmp, bs);
        if !ok {
          return Refused(Internal);
        }
        copied := copied + |bs|;
      case ReadInterrupted =>
      case ReadFailed =>
        return Refused(Internal);
    }
    if size.Some? && copied != size.value {
      return Refused(IncompleteTransfer);
    }
    return Stored(copied);
  }

  /** `io::copy` out of a framed stream through a buffer of any size, then the checks that
      it was complete and not empty by accident. */
  method FillFramed(disk: FileSystem, tmp: Path, src: Source, allowEmpty: bool, bufSize: nat) returns (r: Filled)
    requires tmp in disk.files && disk.files[tmp].content == [] && bufSize > 0
    modifies disk, src
    ensures Filling(disk, tmp)
    ensures var v := Judge(Framed(allowEmpty), Bytes(old(src.script)), EndsWell(old(src.script)));
      && (r.Stored? ==> v == Accept(disk.files[tmp].content, r.n))
      && (old(disk.faults) == [] ==> r == if v.Accept? then Stored(v.n) else Refused(v.code))
  {
    hide Framing.Decode;
    var framed := new Framing.FramedReader(src);
    var buf := new byte[bufSize];
    ghost var whole := framed.Ahead();
    while true
      invariant Filling(disk, tmp)
      invariant framed.inner == src && fresh(framed) && fresh(buf)
      invariant !framed.complete
      invariant framed.total == Framing.Wrap64(|disk.files[tmp].content|)
      invariant EndsWell(src.script) == EndsWell(old(src.script))
      invariant disk.files[tmp].content + framed.Ahead().payload == whole.payload
      invariant framed.Ahead().verdict == whole.verdict
      decreases |Bytes(src.script)|
    {
      ghost var have := disk.files[tmp].content;
      var got := framed.Read(buf);
      match got
      case Error(kind) =>
        return Refused(if kind == Broken then Internal else IncompleteTransfer);
      case Delivered(n) =>
        if n == 0 {
          break;
        }
        Assoc(have, buf[..n], framed.Ahead().payload);
        Framing.Add64Adds(0, |have|, n);
        var ok := disk.Append(tmp, buf[..n]);
        if !ok {
          return Refused(Internal);
        }
    }
    if framed.total == 0 && !allowEmpty {
      return Refused(EmptyStream);
    }
    return Stored(framed.total);
  }

  /** chmod, then chown, each only if asked for. */
  method ApplyAttributes(disk: FileSystem, tmp: Path, a: Attributes) returns (error: Option<ErrorCode>)
    requires tmp in disk.files
    modifies disk
    ensures old(disk.past) <= disk.past
    ensures OnlyTouched(disk.past, |old(disk.past)|, old(disk.files), tmp)
    ensures SameBut(disk.files, old(disk.files), tmp) && tmp in disk.files
    ensures old(disk.faults) == [] ==> disk.faults == [] && error.None?
    ensures disk.failedRemovals == old(disk.failedRemovals)
    ensures error.None? ==>
      var f := old(disk.files)[tmp];
      disk.files[tmp] == Owned(f.(mode := a.mode.GetOr(f.mode)), a.owner, a.group)
  {
    if a.mode.Some? {
      var ok := disk.SetMode(tmp, a.mode.value);
      if !ok {
        return Some(LocalIo);
      }
    }
    if a.owner.Some? || a.group.Some? {
      var ok := disk.SetOwner(tmp, a.owner, a.group);
      if !ok {
        return Some(Unsupported);
      }
    }
    return None;
  }

  method Fill(disk: FileSystem, tmp: Path, body: Body, src: Source, bufSize: nat) returns (r: Filled)
    requires tmp in disk.files && disk.files[tmp].content == [] && bufSize > 0
    modifies disk, src
    ensures Filling(disk, tmp)
    ensures var v := Judge(body, Bytes(old(src.script)), EndsWell(old(src.script)));
      && (r.Stored? ==> v == Accept(disk.files[tmp].content, r.n))
      && (old(disk.faults) == [] ==> r == if v.Accept? then Stored(v.n) else Refused(v.code))
  {
    match body
    case Sized(size) => r := FillSized(disk, tmp, src, size);
    case Framed(allowEmpty) => r := FillFramed(disk, tmp, src, allowEmpty, bufSize);
  }

  /** Fill the temp file and dress it: an error has a code, success a file ready to rename. */
  method Prepare(disk: FileSystem, tmp: Path, a: Attributes, body: Body, src: Source, bufSize: nat)
    returns (r: Filled)
    requires tmp in disk.files && disk.files[tmp] == File([], PRIVATE, None, None) && bufSize > 0
    modifies disk, src
    ensures old(disk.past) <= disk.past
    ensures OnlyTouched(disk.past, |old(disk.past)|, old(disk.files), tmp)
    ensures SameBut(disk.files, old(disk.files), tmp) && tmp in disk.files
    ensures var v := Judge(body, Bytes(old(src.script)), EndsWell(old(src.script)));
      && (r.Stored? ==> v.Accept? && r.n == v.n && disk.files[tmp] == Finished(v.content, a))
      && (old(disk.faults) == [] ==> disk.faults == [] && r == if v.Accept? then Stored(v.n) else Refused(v.code))
    ensures disk.failedRemovals == old(disk.failedRemovals)
  {
    r := Fill(disk, tmp, body, src, bufSize);
    if r.Stored? {
      var error := ApplyAttributes(disk, tmp, a);
      if error.Some? {
        return Refused(error.value);
      }
    }
  }

  /** Note the mode the file has, then rename it; a failure removes it. */
  method Publish(disk: FileSystem, tmp: Path, path: Path) returns (ok: bool, mode: Option<string>)
    requires tmp in disk.files
    modifies disk
    ensures old(disk.past) <= disk.past && old(disk.failedRemovals) <= disk.failedRemovals
    ensures ok ==> && disk.files == (old(disk.files) - {tmp})[path := old(disk.files[tmp])]
                   && disk.failedRemovals == old(disk.failedRemovals)
    ensures !ok ==>
      disk.files == if disk.failedRemovals == old(disk.failedRemovals) then old(disk.files) - {tmp} else old(disk.files)
    ensures tmp != path ==> OldOrFinished(disk.past, |old(disk.past)|, path, old(disk.files),
                                          if ok then Some(old(disk.files[tmp])) else None)
    ensures mode.Some? ==> mode == Some(Octal.OctalMode(old(disk.files[tmp]).mode))
    ensures old(disk.faults) == [] ==> ok && mode.Some?
  {
    hide Octal.OctalMode;
    var stat := disk.Stat(tmp);
    mode := if stat.Some? then Some(Octal.OctalMode(stat.value.mode)) else None;
    ok := disk.Rename(tmp, path);
    if !ok {
      disk.Remove(tmp);
    }
  }

  method InstallFile(disk: FileSystem, target: Target, suffix: string, a: Attributes, body: Body, src: Source,
                     bufSize: nat)
    returns (r: Response)
    requires bufSize > 0
    modifies disk, src
    ensures old(disk.past) <= disk.past
    ensures target.name.None? ==> r == Error(BadRequest) && disk.past == old(disk.past)
    ensures old(disk.failedRemovals) <= disk.failedRemovals
    ensures r.Error? ==>
      Undone(disk.files, old(disk.files), TempPath(target.dir, suffix), disk.failedRemovals == old(disk.failedRemovals))
    ensures old(disk.faults) == [] ==> disk.failedRemovals == old(disk.failedRemovals)
    ensures target.name.Some? ==>
      var path := Path(target.dir, target.name.value);
      var tmp := TempPath(target.dir, suffix);
      var v := Judge(body, Bytes(old(src.script)), EndsWell(old(src.script)));
      && (r.Copied? ==>
            && v.Accept? && r.bytes == v.n && r.path == path
            && disk.files == old(disk.files)[path := Finished(v.content, a)]
            && (r.mode.Some? ==> r.mode == Some(Octal.OctalMode(disk.files[path].mode))))
      && (tmp != path ==> OldOrFinished(disk.past, |old(disk.past)|, path, old(disk.files),
                                        if r.Copied? then Some(disk.files[path]) else None))
      && (old(disk.faults) == [] && tmp !in old(disk.files) ==>
            if v.Accept? then r == Copied(path, v.n, Some(Octal.OctalMode(Finished(v.content, a).mode)))
            else r == Error(v.code))
  {
    if target.name.None? {
      return Error(BadRequest);
    }
    hide Judge, Octal.OctalMode;
    var path := Path(target.dir, target.name.value);
    var tmp := TempPath(target.dir, suffix);
    ghost var before := disk.files;
    var ok := disk.CreateNew(tmp, PRIVATE);
    if !ok {
      return Error(LocalIo);
    }
    ghost var base, mark := disk.files, |disk.past|;
    var ready := Prepare(disk, tmp, a, body, src, bufSize);
    assert disk.files - {tmp} == before by { assert base - {tmp} == before; }
    if tmp != path {
      UntouchedTarget(disk.past, mark, base, tmp, path, before);
    }
    if ready.Refused? {
      disk.Remove(tmp);
      return Error(ready.code);
    }
    var mode;
    ok, mode := Publish(disk, tmp, path);
    return if ok then Copied(path, ready.n, mode) else Error(LocalIo);
  }
}
