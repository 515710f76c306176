/** Byte streams as the code meets them: a source that answers each read with a piece, an
    interruption or a failure, and a sink that stops accepting at some byte. The script of
    a source and the room of a sink stand for every schedule of the environment. */
module Streams {
  import opened Common

  type piece = c: seq<byte> | 1 <= |c| witness [0]

  datatype ReadEvent = Data(bytes: piece) | Interrupted | Failed

  /** `Got([])` is the end of the stream. */
  datatype ReadResult = Got(bytes: seq<byte>) | ReadInterrupted | ReadFailed

  datatype ReadError = UnexpectedEof | InvalidData | Broken

  /** The bytes a script delivers before it ends or fails. */
  function Bytes(script: seq<ReadEvent>): seq<byte> {
    if script == [] || script[0].Failed? then []
    else if script[0].Interrupted? then Bytes(script[1..])
    else script[0].bytes + Bytes(script[1..])
  }

  predicate EndsWell(script: seq<ReadEvent>) {
    script == [] || (!script[0].Failed? && EndsWell(script[1..]))
  }

  /** Events and bytes still to come: what every read but the last one uses up. */
  function Weight(script: seq<ReadEvent>): nat {
    if script == [] then 0
    else (if script[0].Data? then |script[0].bytes| else 1) + Weight(script[1..])
  }

  /** The result of one read of at most `max` bytes, and the script left. */
  function ReadStep(script: seq<ReadEvent>, max: nat): (r: (ReadResult, seq<ReadEvent>))
    requires max > 0
    ensures r.0.Got? ==> |r.0.bytes| <= max && r.0.bytes + Bytes(r.1) == Bytes(script)
    ensures !r.0.Got? ==> Bytes(r.1) == Bytes(script)
    ensures EndsWell(r.1) == EndsWell(script)
    ensures r.0 == Got([]) <==> script == []
    ensures r.0 == ReadFailed ==> !EndsWell(script) && Bytes(script) == []
    ensures r.0 != Got([]) && r.0 != ReadFailed ==> Weight(r.1) < Weight(script)
  {
    if script == [] then (Got([]), script)
    else
      var rest := script[1..];
      match script[0]
      case Interrupted => (ReadInterrupted, rest)
      case Failed => (ReadFailed, script)
      case Data(bs) =>
        if |bs| <= max then (Got(bs), rest)
        else
          var left: seq<ReadEvent> := [Data(bs[max..])] + rest;
          assert left[1..] == rest;
          (Got(bs[..max]), left)
  }

  class Source {
    var script: seq<ReadEvent>

    constructor (script: seq<ReadEvent>)
      ensures this.script == script
    {
      this.script := script;
    }

    method Read(max: nat) returns (r: ReadResult)
      requires max > 0
      modifies this
      ensures (r, script) == ReadStep(old(script), max)
    {
      var step := ReadStep(script, max);
      r, script := step.0, step.1;
    }

    /** Fill a buffer of n bytes or fail: the loop behind `read_exact`. */
    method ReadExact(n: nat) returns (bytes: seq<byte>, error: Option<ReadError>)
      modifies this
      ensures error.None? <==> n <= |Bytes(old(script))|
      ensures error.None? ==> bytes == Bytes(old(script))[..n] && Bytes(script) == Bytes(old(script))[n..]
      ensures error.Some? ==> error == Some(if EndsWell(old(script)) then UnexpectedEof else Broken)
      ensures error.Some? ==> Bytes(script) == []
      ensures EndsWell(script) == EndsWell(old(script))
    {
      bytes := [];
      while |bytes| < n
        invariant |bytes| <= n
        invariant bytes + Bytes(script) == Bytes(old(script))
        invariant EndsWell(script) == EndsWell(old(script))
        decreases Weight(script)
      {
        ghost var before := bytes;
        var r := Read(n - |bytes|);
        match r
        case Got(more) =>
          if more == [] {
            return bytes, Some(UnexpectedEof);
          }
          bytes := bytes + more;
          assert before + (more + Bytes(script)) == bytes + Bytes(script);
        case ReadInterrupted =>
        case ReadFailed =>
          return bytes, Some(Broken);
      }
      return bytes, None;
    }
  }

  predicate Fits(room: Option<nat>, bytes: seq<byte>) {
    room.None? || |bytes| <= room.value
  }

  /** What gets through of `bytes`. */
  function Accepted(room: Option<nat>, bytes: seq<byte>): (a: seq<byte>)
    ensures a <= bytes && (a == bytes <==> Fits(room, bytes))
  {
    if Fits(room, bytes) then bytes else bytes[..room.value]
  }

  function RoomAfter(room: Option<nat>, n: nat): Option<nat> {
    if room.None? then None else if n <= room.value then Some(room.value - n) else Some(0)
  }

  /** Writing in two goes is writing at once. */
  lemma AcceptedAppend(room: Option<nat>, a: seq<byte>, b: seq<byte>)
    requires Fits(room, a)
    ensures Accepted(room, a + b) == a + Accepted(RoomAfter(room, |a|), b)
    ensures RoomAfter(room, |a + b|) == RoomAfter(RoomAfter(room, |a|), |b|)
    ensures Fits(room, a + b) <==> Fits(RoomAfter(room, |a|), b)
  {
  }

  /** A write that breaks hides everything after it. */
  lemma AcceptedCut(room: Option<nat>, a: seq<byte>, b: seq<byte>)
    requires !Fits(room, a)
    ensures Accepted(room, a + b) == Accepted(room, a) && !Fits(room, a + b)
    ensures RoomAfter(room, |a + b|) == RoomAfter(room, |a|)
  {
  }

  /** A pipe that breaks after `room` more bytes, when it breaks at all. */
  class Sink {
    var written: seq<byte>
    var room: Option<nat>
    const flushes: bool

    constructor (room: Option<nat>, flushes: bool)
      ensures written == [] && this.room == room && this.flushes == flushes
    {
      this.written, this.room, this.flushes := [], room, flushes;
    }

    method WriteAll(bytes: seq<byte>) returns (ok: bool)
      modifies this
      ensures ok == Fits(old(room), bytes)
      ensures written == old(written) + Accepted(old(room), bytes)
      ensures room == RoomAfter(old(room), |bytes|)
    {
      ok := Fits(room, bytes);
      written := written + Accepted(room, bytes);
      room := RoomAfter(room, |bytes|);
    }
  }
}
