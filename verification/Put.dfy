/** `put` end to end: the client writes one request line and a body into an ssh channel
    that may be cut at any byte, rxd installs what arrives, and the client combines what
    it wrote with what it heard back (src/ssh.rs, src/remote/serve.rs, src/remote/actions.rs). */
module Put {
  import opened Common
  import opened Streams
  import opened Disk
  import opened Install
  import Framing

  const NEWLINE: byte := 10

  /** Requests are one JSON line, so they hold no newline. */
  predicate OneLine(line: seq<byte>) {
    line != [] && NEWLINE !in line
  }

  /** Read up to the first newline or the end; the bytes after it stay in the stream. */
  method ReadRequestLine(src: Source) returns (line: Option<seq<byte>>)
    modifies src
    ensures EndsWell(src.script) == EndsWell(old(src.script))
    ensures line.Some? ==> NEWLINE !in line.value
    ensures line.Some? ==> || Bytes(old(src.script)) == line.value + [NEWLINE] + Bytes(src.script)
                           || (Bytes(old(src.script)) == line.value && Bytes(src.script) == [] && EndsWell(src.script))
    ensures line.None? ==> NEWLINE !in Bytes(old(src.script)) && !EndsWell(old(src.script))
  {
    var read: seq<byte> := [];
    while true
      invariant NEWLINE !in read
      invariant Bytes(old(src.script)) == read + Bytes(src.script)
      invariant EndsWell(src.script) == EndsWell(old(src.script))
      decreases Weight(src.script)
    {
      var got := src.Read(1);
      match got
      case Got(bs) =>
        if bs == [] {
          return Some(read);
        }
        Assoc(read, bs, Bytes(src.script));
        if bs[0] == NEWLINE {
          assert bs == [NEWLINE];
          return Some(read);
        }
        read := read + bs;
      case ReadInterrupted =>
      case ReadFailed =>
        return None;
    }
  }

  /** Everything `put` asks of rxd, with the faults of its surroundings. */
  datatype Job = Job(line: seq<byte>, target: Target, attributes: Attributes, body: Body,
                     suffix: string, bufSize: nat, baseOk: bool)
  {
    predicate Valid() {
      OneLine(line) && target.name.Some? && bufSize > 0 && TempPath(target.dir, suffix) != Destination()
    }

    function Destination(): Path {
      Path(target.dir, target.name.GetOr(""))
    }

    function Temp(): Path {
      TempPath(target.dir, suffix)
    }
  }

  /** How the request reads on arrival: the line and the body behind it, or the line alone
      if the channel was cut right after it. */
  predicate Arrival(job: Job, arrived: seq<byte>, rest: seq<byte>) {
    arrived == job.line + [NEWLINE] + rest || (arrived == job.line && rest == [])
  }

  /** rxd: a line that arrived damaged is not a request; the right one installs `rest`. */
  method Serve(disk: FileSystem, src: Source, job: Job) returns (r: Response, ghost rest: seq<byte>)
    requires job.Valid()
    modifies disk, src
    ensures old(disk.past) <= disk.past
    ensures old(disk.failedRemovals) <= disk.failedRemovals
    ensures r.Error? ==>
      Undone(disk.files, old(disk.files), job.Temp(), disk.failedRemovals == old(disk.failedRemovals))
    ensures old(disk.faults) == [] ==> disk.failedRemovals == old(disk.failedRemovals)
    ensures OldOrFinished(disk.past, |old(disk.past)|, job.Destination(), old(disk.files),
                          if r.Copied? then At(disk.files, job.Destination()) else None)
    ensures r.Copied? ==>
      var v := Judge(job.body, rest, EndsWell(old(src.script)));
      && Arrival(job, Bytes(old(src.script)), rest) && v.Accept?
      && disk.files == old(disk.files)[job.Destination() := Finished(v.content, job.attributes)]
      && r.path == job.Destination() && r.bytes == v.n
    ensures forall body | Bytes(old(src.script)) == job.line + [NEWLINE] + body ::
      var v := Judge(job.body, body, EndsWell(old(src.script)));
      && (!job.baseOk ==> r == Error(Internal))
      && (job.baseOk && old(disk.faults) == [] && job.Temp() !in old(disk.files) ==>
            if v.Accept? then r.Copied? else r == Error(v.code))
    ensures Bytes(old(src.script)) < job.line ==> r == Error(BadRequest)
  {
    hide Judge;
    ghost var arrived := Bytes(src.script);
    var line := ReadRequestLine(src);
    rest := Bytes(src.script);
    forall body | arrived == job.line + [NEWLINE] + body
      ensures line == Some(job.line) && rest == body
    {
      SameSplit(job.line, body, line, rest, arrived);
    }
    if line.None? || line.value != job.line {
      return Error(BadRequest), rest;
    }
    if !job.baseOk {
      return Error(Internal), rest;
    }
    r := InstallFile(disk, job.target, job.suffix, job.attributes, job.body, src, job.bufSize);
  }

  /** A stream splits at its first newline in one way only. */
  lemma SameSplit(a: seq<byte>, rest: seq<byte>, line: Option<seq<byte>>, left: seq<byte>, whole: seq<byte>)
    requires NEWLINE !in a && whole == a + [NEWLINE] + rest
    requires line.None? ==> NEWLINE !in whole
    requires line.Some? ==> NEWLINE !in line.value && (whole == line.value + [NEWLINE] + left || whole == line.value)
    ensures line == Some(a) && left == rest
  {
    assert whole[|a|] == NEWLINE && NEWLINE in whole;
    var b := line.value;
    assert whole != b;
    assert whole == b + [NEWLINE] + left;
    assert whole[|b|] == NEWLINE;
    assert |a| == |b|;
    assert a == whole[..|a|] == b && rest == whole[|a| + 1..] == left;
  }

  /** What the client makes of it. */
  datatype Outcome = Answer(response: Response) | TransportError | LocalError

  /** rxd's explanation beats any local write failure, and a success is trusted only when
      the whole body was written. `heard` is None when no answer came back. */
  function Combine(heard: Option<Response>, wrote: bool): Outcome {
    match heard
    case None => TransportError
    case Some(resp) => if resp.Error? || wrote then Answer(resp) else LocalError
  }

  /** The channel: the client's writes stop being accepted after `room` bytes, `arrives`
      gives the script in which rxd reads a prefix of what was accepted, and the answer
      reaches the client if `answers`. */
  datatype Channel = Channel(room: Option<nat>, flushes: bool, arrives: seq<byte> -> seq<ReadEvent>, answers: bool)
  {
    ghost predicate Cuts() {
      forall w :: Bytes(arrives(w)) <= w
    }

    /** As long as the connection lives to bring an answer, an end of file seen by rxd is the
        client's. */
    ghost predicate EndsTruly() {
      forall w :: answers && EndsWell(arrives(w)) ==> Bytes(arrives(w)) == w
    }

    ghost predicate Perfect() {
      room.None? && flushes && answers && forall w :: Bytes(arrives(w)) == w && EndsWell(arrives(w))
    }
  }

  /** A prefix of line, newline and body leaves a prefix of the body after its line. */
  lemma AfterLine(job: Job, body: seq<byte>, arrived: seq<byte>, rest: seq<byte>)
    requires arrived <= (job.line + [NEWLINE]) + body && Arrival(job, arrived, rest)
    ensures rest <= body
  {
    var whole := (job.line + [NEWLINE]) + body;
    if arrived != job.line {
      forall i | 0 <= i < |rest|
        ensures i < |body| && rest[i] == body[i]
      {
        assert rest[i] == arrived[|job.line| + 1 + i] == whole[|job.line| + 1 + i];
      }
    }
  }

  /** Only the framing of a source that ended gets past the framed check, and only whole. */
  lemma {:induction false} FramedPrefix(script: seq<ReadEvent>, rest: seq<byte>, allowEmpty: bool, endsWell: bool)
    requires rest <= Framing.Outgoing(script) && Judge(Framed(allowEmpty), rest, endsWell).Accept?
    ensures EndsWell(script) && Judge(Framed(allowEmpty), rest, endsWell).content == Bytes(script)
    ensures Bytes(script) == [] ==> allowEmpty
  {
    var cs := Framing.Pieces(script);
    hide Framing.Decode, Framing.Frames, Framing.Pieces, Framing.Terminator, Flatten, Bytes;
    var wire := Framing.Wire(cs);
    if rest != wire {
      assert rest == wire[..|rest|] && |rest| < |wire|;
      Framing.PrefixRejected(cs, |rest|);
    }
    Framing.RoundTrip(cs, []);
    assert wire + [] == wire;
    assert Framing.Wrap64(0) == 0;
  }

  /** Nothing is refused without a reason: a stream that ends and arrives whole is accepted
      unless it is empty and that was not allowed. */
  lemma {:induction false} WholeStreamAccepted(script: seq<ReadEvent>, allowEmpty: bool)
    requires EndsWell(script)
    ensures var n := Framing.Wrap64(|Bytes(script)|);
      Judge(Framed(allowEmpty), Framing.Outgoing(script), true)
      == if n == 0 && !allowEmpty then Reject(EmptyStream) else Accept(Bytes(script), n)
  {
    var cs := Framing.Pieces(script);
    Framing.RoundTrip(cs, []);
    assert Framing.Wire(cs) + [] == Framing.Wire(cs);
  }

  /** What a source that broke sends, without its terminator, is refused as incomplete. */
  lemma {:induction false} BrokenStreamRefused(script: seq<ReadEvent>, allowEmpty: bool)
    requires !EndsWell(script)
    ensures Judge(Framed(allowEmpty), Framing.Outgoing(script), true) == Reject(IncompleteTransfer)
  {
    var cs := Framing.Pieces(script);
    var sent, wire := Framing.Frames(cs), Framing.Wire(cs);
    assert sent == wire[..|sent|];
    hide Framing.Decode, Framing.Frames, Framing.Pieces, Framing.Terminator, Flatten, Bytes;
    Framing.PrefixRejected(cs, |sent|);
  }

  /** The client's half: the request line, then the body. */
  method Send(pipe: Sink, job: Job, body: Source) returns (ok: bool)
    requires pipe.written == []
    modifies pipe, body
    ensures var out := if job.body.Framed? then Framing.Outgoing(old(body.script)) else Bytes(old(body.script));
      && pipe.written == Accepted(old(pipe.room), (job.line + [NEWLINE]) + out)
      && ok == (&& EndsWell(old(body.script)) && Fits(old(pipe.room), (job.line + [NEWLINE]) + out)
                && (job.body.Framed? ==> pipe.flushes))
  {
    ghost var room, script := pipe.room, body.script;
    ghost var out := if job.body.Framed? then Framing.Outgoing(script) else Bytes(script);
    hide Framing.Outgoing, Bytes, EndsWell;
    ok := pipe.WriteAll(job.line + [NEWLINE]);
    assert pipe.written == Accepted(room, job.line + [NEWLINE]);
    if ok {
      AcceptedAppend(room, job.line + [NEWLINE], out);
      if job.body.Framed? {
        var sent := Framing.WriteFramed(body, pipe);
        ok := sent.Some?;
      } else {
        ok := CopyOut(body, pipe);
      }
    } else {
      AcceptedCut(room, job.line + [NEWLINE], out);
    }
  }

  /** `io::copy` of the local file into the pipe. */
  method CopyOut(src: Source, dst: Sink) returns (ok: bool)
    modifies src, dst
    ensures ok == (EndsWell(old(src.script)) && Fits(old(dst.room), Bytes(old(src.script))))
    ensures dst.written == old(dst.written) + Accepted(old(dst.room), Bytes(old(src.script)))
  {
    ghost var start, room, goal := dst.written, dst.room, Bytes(src.script);
    ghost var done: seq<byte> := [];
    while true
      invariant done + Bytes(src.script) == goal && Fits(room, done)
      invariant EndsWell(src.script) == EndsWell(old(src.script))
      invariant dst.written == start + done && dst.room == RoomAfter(room, |done|)
      decreases Weight(src.script)
    {
      var got := src.Read(8192);
      match got
      case Got(bs) =>
        if bs == [] {
          assert done == goal;
          return true;
        }
        Assoc(done, bs, Bytes(src.script));
        AcceptedAppend(room, done, bs);
        Assoc(start, done, Accepted(dst.room, bs));
        ok := dst.WriteAll(bs);
        if !ok {
          AcceptedCut(room, done + bs, Bytes(src.script));
          return false;
        }
        done := done + bs;
      case ReadInterrupted =>
      case ReadFailed =>
        assert done == goal;
        return false;
    }
  }

  /** `put -`: at every step of rxd, so also when it crashes there, the target is the old
      file or exactly the bytes the client read to the end of its stdin. `Copied` means the
      latter, and an empty file only if that was allowed; an error answer means nothing was
      installed. With no fault anywhere the answer is `Copied`. */
  method PutStdin(disk: FileSystem, stdin: Source, job: Job, channel: Channel) returns (r: Outcome)
    requires job.Valid() && job.body.Framed? && channel.Cuts()
    modifies disk, stdin
    ensures var sent, whole := Bytes(old(stdin.script)), EndsWell(old(stdin.script));
      var finished := Finished(sent, job.attributes);
      && old(disk.past) <= disk.past
      && OldOrFinished(disk.past, |old(disk.past)|, job.Destination(), old(disk.files),
                       if whole then Some(finished) else None)
      && (|| Undone(disk.files, old(disk.files), job.Temp(), disk.failedRemovals == old(disk.failedRemovals))
          || (whole && disk.files == old(disk.files)[job.Destination() := finished]))
      && (r.Answer? && r.response.Copied? ==>
            && whole && disk.files == old(disk.files)[job.Destination() := finished]
            && r.response.path == job.Destination() && r.response.bytes == Framing.Wrap64(|sent|)
            && (sent == [] ==> job.body.allowEmpty)
            && channel.flushes && Fits(channel.room, (job.line + [NEWLINE]) + Framing.Outgoing(old(stdin.script))))
      && (r.TransportError? <==> !channel.answers)
      && (r.LocalError? ==> whole && disk.files == old(disk.files)[job.Destination() := finished])
      && (r.Answer? && r.response.Error? ==>
            Undone(disk.files, old(disk.files), job.Temp(), disk.failedRemovals == old(disk.failedRemovals)))
      && (channel.Perfect() && job.baseOk && old(disk.faults) == [] && job.Temp() !in old(disk.files) ==>
            if !whole then r == Answer(Error(IncompleteTransfer))
            else if !job.body.allowEmpty && Framing.Wrap64(|sent|) == 0 then r == Answer(Error(EmptyStream))
            else r.Answer? && r.response.Copied?)
  {
    ghost var script := stdin.script;
    var pipe := new Sink(channel.room, channel.flushes);
    var wrote := Send(pipe, job, stdin);
    hide Judge, Framing.Outgoing;
    var arrived := channel.arrives(pipe.written);
    var src := new Source(arrived);
    var resp, rest := Serve(disk, src, job);
    if resp.Copied? {
      AfterLine(job, Framing.Outgoing(script), Bytes(arrived), rest);
      FramedPrefix(script, rest, job.body.allowEmpty, EndsWell(arrived));
    } else if EndsWell(script) {
      WholeStreamAccepted(script, job.body.allowEmpty);
    } else {
      BrokenStreamRefused(script, job.body.allowEmpty);
    }
    return Combine(if channel.answers then Some(resp) else None, wrote);
  }

  /** `put FILE`: the size was declared before the file was read. The target is the old file
      or the first `size` bytes the client read, and exactly that many were declared. */
  method PutFile(disk: FileSystem, file: Source, size: nat, job: Job, channel: Channel) returns (r: Outcome)
    requires job.Valid() && job.body == Sized(Some(size)) && channel.Cuts()
    modifies disk, file
    ensures var sent := Bytes(old(file.script));
      var finished := if size <= |sent| then Some(Finished(sent[..size], job.attributes)) else None;
      && old(disk.past) <= disk.past
      && OldOrFinished(disk.past, |old(disk.past)|, job.Destination(), old(disk.files), finished)
      && (|| Undone(disk.files, old(disk.files), job.Temp(), disk.failedRemovals == old(disk.failedRemovals))
          || (finished.Some? && disk.files == old(disk.files)[job.Destination() := finished.value]))
      && (r.Answer? && r.response.Copied? ==>
            && finished.Some? && disk.files == old(disk.files)[job.Destination() := finished.value]
            && r.response.path == job.Destination() && r.response.bytes == size
            && EndsWell(old(file.script)) && Fits(channel.room, (job.line + [NEWLINE]) + sent))
      && (r.TransportError? <==> !channel.answers)
      && (r.LocalError? ==> finished.Some? && disk.files == old(disk.files)[job.Destination() := finished.value])
      && (r.Answer? && r.response.Copied? && channel.EndsTruly() ==> EndsWell(old(file.script)) && size == |sent|)
      && (channel.Perfect() && job.baseOk && old(disk.faults) == [] && job.Temp() !in old(disk.files) ==>
            if size != |sent| then r == Answer(Error(IncompleteTransfer))
            else EndsWell(old(file.script)) ==> r.Answer? && r.response.Copied?)
      && (r.Answer? && r.response.Error? ==>
            Undone(disk.files, old(disk.files), job.Temp(), disk.failedRemovals == old(disk.failedRemovals)))
  {
    ghost var sent := Bytes(file.script);
    var pipe := new Sink(channel.room, channel.flushes);
    var wrote := Send(pipe, job, file);
    var arrived := channel.arrives(pipe.written);
    var src := new Source(arrived);
    var resp, rest := Serve(disk, src, job);
    if resp.Copied? {
      AfterLine(job, sent, Bytes(arrived), rest);
      assert rest == sent[..size];
      if wrote && Bytes(arrived) == pipe.written {
        assert rest == sent by { WholeArrival(job, sent, rest); }
      }
    }
    return Combine(if channel.answers then Some(resp) else None, wrote);
  }

  lemma WholeArrival(job: Job, sent: seq<byte>, rest: seq<byte>)
    requires Arrival(job, (job.line + [NEWLINE]) + sent, rest)
    ensures rest == sent
  {
    var whole := (job.line + [NEWLINE]) + sent;
    assert |whole| > |job.line|;
    assert rest == whole[|job.line| + 1..] && sent == whole[|job.line| + 1..];
  }
}
