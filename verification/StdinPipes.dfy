/** Bytes on their way into a process's stdin FIFO: the non-blocking feed of `run` and `write`
    (src/remote/actions.rs), and the two relay loops of a piped `write`, one on each side of
    the ssh connection (src/bin/rx.rs, src/remote/actions.rs). */
module StdinPipes {
  import opened Common
  import opened Streams
  import opened Framing

  // ---- Writing to a pipe -----------------------------------------------------

  /** How one `write` fares; a full non-blocking pipe may have been waited for too long. */
  datatype WriteEvent =
    Takes(n: nat) | TakesNothing | SignalArrives | WouldBlock(late: bool) | PipeBroken | OtherFailure

  datatype Written = Wrote(n: nat) | WroteZero | WriteInterrupted | NotNow(late: bool) | BrokenPipe | WriteFailed

  /** The result of a `write` that fares like this. */
  predicate Shows(event: WriteEvent, r: Written) {
    match event
    case Takes(_) => r.Wrote?
    case TakesNothing => r.WroteZero?
    case SignalArrives => r.WriteInterrupted?
    case WouldBlock(late) => r == NotNow(late)
    case PipeBroken => r.BrokenPipe?
    case OtherFailure => r.WriteFailed?
  }

  /** A pipe with a reader somewhere; `script` is what happens, and after it every write is
      taken in full. */
  class Pipe {
    var received: seq<byte>
    var script: seq<WriteEvent>

    constructor (script: seq<WriteEvent>)
      ensures received == [] && this.script == script
    {
      received, this.script := [], script;
    }

    method Write(bytes: seq<byte>) returns (r: Written)
      requires bytes != []
      modifies this
      ensures r.Wrote? ==> 1 <= r.n <= |bytes| && received == old(received) + bytes[..r.n]
      ensures !r.Wrote? ==> received == old(received)
      ensures script == if old(script) == [] then [] else old(script)[1..]
      ensures Shows(if old(script) == [] then Takes(0) else old(script)[0], r)
    {
      var event := if script == [] then Takes(|bytes|) else script[0];
      script := if script == [] then [] else script[1..];
      match event
      case Takes(k) =>
        var n := if k == 0 then 1 else Min(k, |bytes|);
        received := received + bytes[..n];
        r := Wrote(n);
      case TakesNothing => r := WroteZero;
      case SignalArrives => r := WriteInterrupted;
      case WouldBlock(late) => r := NotNow(late);
      case PipeBroken => r := BrokenPipe;
      case OtherFailure => r := WriteFailed;
    }
  }

  /** Nothing but whole or partial writes; and signals; and short waits. */
  predicate Smooth(script: seq<WriteEvent>) {
    forall i :: 0 <= i < |script| ==> script[i].Takes?
  }

  predicate Calm(script: seq<WriteEvent>) {
    forall i :: 0 <= i < |script| ==> script[i].Takes? || script[i].SignalArrives?
  }

  predicate Patient(script: seq<WriteEvent>) {
    forall i :: 0 <= i < |script| ==> script[i].Takes? || script[i].SignalArrives? || script[i] == WouldBlock(false)
  }

  predicate Suffix(now: seq<WriteEvent>, was: seq<WriteEvent>) {
    |now| <= |was| && now == was[|was| - |now|..]
  }

  /** The last event that has happened. */
  function Last(now: seq<WriteEvent>, was: seq<WriteEvent>): WriteEvent
    requires |now| < |was|
  {
    was[|was| - |now| - 1]
  }

  // ---- write and run ---------------------------------------------------------

  datatype FeedResult = Fed(n: nat) | TimedOut | FeedFailed

  lemma WroteMore(before: seq<byte>, data: seq<byte>, offset: nat, n: nat)
    requires offset + n <= |data|
    ensures before + data[..offset] + data[offset..][..n] == before + data[..offset + n]
  {
    assert data[offset..][..n] == data[offset..offset + n];
    TakeMore(data, offset, offset + n);
    Assoc(before, data[..offset], data[offset..offset + n]);
  }

  /** A success is the whole data; a failure is a proper prefix of it. */
  method WriteAllNonblocking(pipe: Pipe, data: seq<byte>) returns (r: FeedResult, ghost done: nat)
    modifies pipe
    ensures done <= |data| && pipe.received == old(pipe.received) + data[..done]
    ensures (r.Fed? <==> done == |data|) && (r.Fed? ==> r.n == |data|)
    ensures Patient(old(pipe.script)) ==> r.Fed?
    ensures !r.Fed? ==> |pipe.script| < |old(pipe.script)|
    ensures r.TimedOut? ==> Last(pipe.script, old(pipe.script)) == WouldBlock(true)
    ensures r.FeedFailed? ==>
      var e := Last(pipe.script, old(pipe.script)); e.TakesNothing? || e.PipeBroken? || e.OtherFailure?
  {
    var offset := 0;
    assert old(pipe.received) + data[..0] == old(pipe.received);
    while offset < |data|
      invariant offset <= |data| && pipe.received == old(pipe.received) + data[..offset]
      invariant Suffix(pipe.script, old(pipe.script))
      decreases |pipe.script|, |data| - offset
    {
      var written := pipe.Write(data[offset..]);
      match written
      case Wrote(n) =>
        WroteMore(old(pipe.received), data, offset, n);
        offset := offset + n;
      case WroteZero => return FeedFailed, offset;
      case WriteInterrupted =>
      case NotNow(late) =>
        if late {
          return TimedOut, offset;
        }
      case BrokenPipe => return FeedFailed, offset;
      case WriteFailed => return FeedFailed, offset;
    }
    return Fed(offset), offset;
  }

  /** `opens` fails at once when the FIFO has no reader. */
  method FeedFifo(pipe: Pipe, opens: bool, data: seq<byte>) returns (r: FeedResult, ghost done: nat)
    modifies pipe
    ensures done <= |data| && pipe.received == old(pipe.received) + data[..done]
    ensures r.Fed? ==> opens && done == |data| == r.n
    ensures r.TimedOut? ==>
      |pipe.script| < |old(pipe.script)| && Last(pipe.script, old(pipe.script)) == WouldBlock(true)
    ensures opens && (done == |data| || Patient(old(pipe.script))) ==> r.Fed?
    ensures !opens ==> r.FeedFailed? && done == 0
    ensures opens && r.FeedFailed? ==>
      && |pipe.script| < |old(pipe.script)|
      && var e := Last(pipe.script, old(pipe.script)); e.TakesNothing? || e.PipeBroken? || e.OtherFailure?
  {
    if !opens {
      assert pipe.received == pipe.received + data[..0];
      return FeedFailed, 0;
    }
    r, done := WriteAllNonblocking(pipe, data);
  }

  datatype WriteReply = Took(bytes: nat) | NotFound | Exited | Timeout | Failure

  /** The `write` request: an answer that counts bytes counts all of them. */
  method WriteStdin(pipe: Pipe, present: bool, terminal: bool, opens: bool, data: seq<byte>)
    returns (r: WriteReply, ghost done: nat)
    modifies pipe
    ensures done <= |data| && pipe.received == old(pipe.received) + data[..done]
    ensures r.Took? ==> present && !terminal && done == |data| == r.bytes
    ensures (r.NotFound? <==> !present) && (r.Exited? <==> present && terminal)
    ensures !present || terminal ==> done == 0
    ensures r.Timeout? ==> |pipe.script| < |old(pipe.script)| && Last(pipe.script, old(pipe.script)) == WouldBlock(true)
    ensures present && !terminal && !opens ==> r.Failure? && done == 0
    ensures r.Failure? && opens ==>
      && |pipe.script| < |old(pipe.script)|
      && var e := Last(pipe.script, old(pipe.script)); e.TakesNothing? || e.PipeBroken? || e.OtherFailure?
    ensures present && !terminal && opens && Patient(old(pipe.script)) ==> r.Took?
  {
    assert pipe.received == pipe.received + data[..0];
    if !present {
      return NotFound, 0;
    }
    if terminal {
      return Exited, 0;
    }
    var fed;
    fed, done := FeedFifo(pipe, opens, data);
    r := match fed case Fed(n) => Took(n) case TimedOut => Timeout case FeedFailed => Failure;
  }

  // ---- The relay loops of a piped write --------------------------------------

  const CLIENT_BUFFER := 65536
  const RXD_BUFFER := 8192

  datatype PipeCopy = Copied(bytes: nat, brokenPipe: bool) | CopyFailed

  /** How the inner loop of a relay ends. */
  datatype ChunkEnd = AllOut | Broke | GaveUp

  /** Write one buffer; the client goes on after a signal, rxd counts it as a failure. */
  method RelayChunk(pipe: Pipe, chunk: seq<byte>, retries: bool) returns (end: ChunkEnd, done: nat)
    modifies pipe
    ensures done <= |chunk| && pipe.received == old(pipe.received) + chunk[..done]
    ensures end == AllOut <==> done == |chunk|
    ensures Suffix(pipe.script, old(pipe.script))
    ensures end != AllOut ==>
      && |pipe.script| < |old(pipe.script)|
      && var e := Last(pipe.script, old(pipe.script));
         if end == Broke then e.PipeBroken? else !e.Takes? && !e.PipeBroken? && (retries ==> !e.SignalArrives?)
    ensures !retries && chunk != [] && old(pipe.script) != [] && old(pipe.script)[0].SignalArrives? ==>
      end == GaveUp && done == 0
  {
    done := 0;
    assert old(pipe.received) + chunk[..0] == old(pipe.received);
    while done < |chunk|
      invariant done <= |chunk| && pipe.received == old(pipe.received) + chunk[..done]
      invariant Suffix(pipe.script, old(pipe.script))
      invariant !retries && old(pipe.script) != [] && old(pipe.script)[0].SignalArrives? ==>
        done == 0 && pipe.script == old(pipe.script)
      decreases |pipe.script|, |chunk| - done
    {
      var written := pipe.Write(chunk[done..]);
      match written
      case Wrote(n) =>
        WroteMore(old(pipe.received), chunk, done, n);
        done := done + n;
      case WriteInterrupted =>
        if !retries {
          return GaveUp, done;
        }
      case BrokenPipe => return Broke, done;
      case _ => return GaveUp, done;
    }
    end := AllOut;
  }

  /** What a relay has passed on is a prefix of what it has read, and that of its input. */
  lemma Relayed(before: seq<byte>, passed: seq<byte>, chunk: seq<byte>, rest: seq<byte>, done: nat)
    requires done <= |chunk|
    ensures before + passed + chunk[..done] == before + (passed + chunk[..done])
    ensures passed + chunk[..done] <= passed + (chunk + rest)
    ensures (passed + chunk) + rest == passed + (chunk + rest)
  {
    assert chunk + rest == chunk[..done] + (chunk[done..] + rest);
    assert passed + (chunk + rest) == (passed + chunk[..done]) + (chunk[done..] + rest);
  }

  lemma Counted(passed: nat, done: nat)
    ensures Add64(Wrap64(passed), done) == Wrap64(passed + done) && Wrap64(0) == 0
  {
  }

  /** The client: local stdin into ssh. */
  method CopyLocalStdin(local: Source, remote: Pipe) returns (r: PipeCopy, ghost passed: seq<byte>)
    modifies local, remote
    ensures passed <= Bytes(old(local.script)) && remote.received == old(remote.received) + passed
    ensures r.Copied? ==> r.bytes == Wrap64(|passed|)
    ensures r.Copied? && !r.brokenPipe ==> passed == Bytes(old(local.script)) && EndsWell(old(local.script))
    ensures Calm(old(remote.script)) && EndsWell(old(local.script)) ==> r.Copied? && !r.brokenPipe
    ensures r.Copied? && r.brokenPipe ==> PipeBroken in old(remote.script)
  {
    passed := [];
    var copied := 0;
    assert old(remote.received) + [] == old(remote.received);
    Counted(0, 0);
    hide Add64, Wrap64;
    while true
      invariant passed + Bytes(local.script) == Bytes(old(local.script))
      invariant EndsWell(local.script) == EndsWell(old(local.script))
      invariant remote.received == old(remote.received) + passed && copied == Wrap64(|passed|)
      invariant Suffix(remote.script, old(remote.script))
      decreases Weight(local.script)
    {
      var got := local.Read(CLIENT_BUFFER);
      match got
      case ReadInterrupted => continue;
      case ReadFailed => return CopyFailed, passed;
      case Got(chunk) =>
        if chunk == [] {
          assert passed + [] == passed;
          return Copied(copied, false), passed;
        }
        var end, done := RelayChunk(remote, chunk, true);
        Relayed(old(remote.received), passed, chunk, Bytes(local.script), done);
        Counted(|passed|, done);
        copied := Add64(copied, done);
        if end == Broke {
          return Copied(copied, true), passed + chunk[..done];
        }
        if end == GaveUp {
          return CopyFailed, passed + chunk[..done];
        }
        assert chunk[..done] == chunk;
        passed := passed + chunk;
    }
  }

  /** rxd: its stdin into the FIFO. A failing read ends it like an end of file. */
  method PipeStdin(stdin: Source, fifo: Pipe, accepts: bool, noClose: bool)
    returns (exitsWell: bool, holderKilled: bool, ghost passed: seq<byte>)
    modifies stdin, fifo
    ensures passed <= Bytes(old(stdin.script)) && fifo.received == old(fifo.received) + passed
    ensures exitsWell ==> accepts && passed == Bytes(old(stdin.script))
    ensures accepts && Smooth(old(fifo.script)) ==> exitsWell
    ensures holderKilled == (accepts && !noClose)
  {
    passed := [];
    assert old(fifo.received) + [] == old(fifo.received);
    if !accepts {
      return false, false, passed;
    }
    while true
      invariant passed + Bytes(stdin.script) == Bytes(old(stdin.script))
      invariant fifo.received == old(fifo.received) + passed
      invariant Suffix(fifo.script, old(fifo.script))
      decreases Weight(stdin.script)
    {
      var got := stdin.Read(RXD_BUFFER);
      match got
      case ReadInterrupted => continue;
      case ReadFailed => break;
      case Got(chunk) =>
        if chunk == [] {
          break;
        }
        var end, done := RelayChunk(fifo, chunk, false);
        Relayed(old(fifo.received), passed, chunk, Bytes(stdin.script), done);
        if end != AllOut {
          return false, !noClose, passed + chunk[..done];
        }
        assert chunk[..done] == chunk;
        passed := passed + chunk;
    }
    assert passed + [] == passed;
    return true, !noClose, passed;
  }

  /** The connection: how what the client wrote arrives, and whether ssh lives to report how
      rxd exited. If it does, an end of file on rxd's side is the real one. */
  datatype Link = Link(arrives: seq<byte> -> seq<ReadEvent>, survives: bool) {
    ghost predicate Faithful() {
      forall w :: Bytes(arrives(w)) <= w && (survives && EndsWell(arrives(w)) ==> Bytes(arrives(w)) == w)
    }
  }

  datatype PipeReport = ReportWritten(bytes: nat) | ReportExited | ReportTransport | ReportInternal

  /** A piped `write` through a new connection. `accepts` says whether rxd finds the process
      and opens its FIFO, `waits` whether the client can wait for ssh. */
  method PipeLocalStdin(local: Source, ssh: seq<WriteEvent>, link: Link, fifo: Pipe,
                        accepts: bool, noClose: bool, waits: bool)
    returns (r: PipeReport, ghost entered: seq<byte>)
    requires link.Faithful()
    modifies local, fifo
    ensures entered <= Bytes(old(local.script)) && fifo.received == old(fifo.received) + entered
    ensures r.ReportWritten? ==> r.bytes == Wrap64(|Bytes(old(local.script))|)
    ensures r.ReportWritten? ==>
      (entered == Bytes(old(local.script)) <==>
         Bytes(link.arrives(Bytes(old(local.script)))) == Bytes(old(local.script)))
    ensures r.ReportWritten? && EndsWell(link.arrives(Bytes(old(local.script)))) ==> entered == Bytes(old(local.script))
    ensures (&& EndsWell(old(local.script)) && Calm(ssh) && Smooth(old(fifo.script))
             && accepts && link.survives && waits) ==>
      r.ReportWritten?
    ensures (r.ReportTransport? ==> waits && !link.survives) && (r.ReportExited? ==> waits && link.survives)
    ensures !waits ==> r.ReportInternal?
    ensures EndsWell(old(local.script)) && Calm(ssh) && waits && !(link.survives && accepts) ==>
      r == if link.survives then ReportExited else ReportTransport
  {
    var channel := new Pipe(ssh);
    var copied, sent := CopyLocalStdin(local, channel);
    assert [] + sent == sent;
    var stdin := new Source(link.arrives(channel.received));
    var exitsWell, killed;
    exitsWell, killed, entered := PipeStdin(stdin, fifo, accepts, noClose);
    assert entered <= Bytes(link.arrives(sent)) <= sent;
    r := Judge(copied, waits, link.survives, exitsWell);
  }

  /** What the client prints, given how ssh exited. */
  function Judge(copied: PipeCopy, waits: bool, survives: bool, exitsWell: bool): (r: PipeReport)
    ensures r.ReportWritten? <==> copied.Copied? && !copied.brokenPipe && waits && survives && exitsWell
    ensures r.ReportWritten? ==> r.bytes == copied.bytes
  {
    if copied.CopyFailed? || !waits then ReportInternal
    else if !survives then ReportTransport
    else if exitsWell && !copied.brokenPipe then ReportWritten(copied.bytes)
    else ReportExited
  }

  /** A read error on rxd's side is reported as success, without the bytes. */
  method ReadErrorUnnoticed() returns (r: PipeReport, fifo: Pipe)
    ensures r == ReportWritten(1) && fifo.received == []
  {
    var local := new Source([Data([7])]);
    fifo := new Pipe([]);
    var link := Link((w: seq<byte>) => [ReadEvent.Failed], true);
    ghost var entered;
    r, entered := PipeLocalStdin(local, [], link, fifo, true, false, true);
    assert entered <= [7] && entered != [7];
  }
}
