/** The answer of a finished `run`, and the removal of its directory (src/remote/actions.rs). */
module Ephemeral {
  import opened Common
  import opened Base64

  const RUN_INLINE_CAP := 262144
  const RUN_EPHEMERAL_CAP := 16384

  /** One captured stream after the command has ended: what it holds, and how its size, its
      opening and its reading fare; a read can break off after some bytes. */
  datatype Captured = Captured(content: seq<byte>, statWorks: bool, opens: bool, breaksAfter: Option<nat>) {
    function Size(): nat {
      if statWorks then |content| else 0
    }

    /** The answer can show all of it. */
    predicate Legible() {
      content == [] || (opens && (breaksAfter.None? || breaksAfter.value >= |content|))
    }
  }

  datatype Tail = Tail(data: seq<byte>, encoding: Encoding, size: nat, truncated: bool) {
    /** What a caller gets back from the text. */
    function Bytes(): Decoding {
      DecodeField(data, encoding)
    }
  }

  /** The last RUN_INLINE_CAP bytes, as far as they can be read. */
  method ReadTail(file: Captured, utf8: seq<byte> -> bool) returns (tail: Tail)
    ensures tail.size == if file.statWorks then |file.content| else 0
    ensures (tail.truncated ==> tail.size > RUN_INLINE_CAP)
    ensures tail.Bytes().Ok?
    ensures file.opens ==> Verbatim(tail.data, tail.encoding, tail.Bytes().bytes, utf8)
    ensures !file.opens ==> tail == Tail([], Utf8, file.Size(), false)
    ensures file.opens ==>
      var whole := file.content[if tail.truncated then |file.content| - RUN_INLINE_CAP else 0..];
      tail.Bytes().bytes == whole[..Min(|whole|, file.breaksAfter.GetOr(|whole|))]
    ensures file.opens && tail.size > RUN_INLINE_CAP ==> tail.truncated
    ensures !tail.truncated ==> (tail.Bytes() == Ok(file.content) <==> file.Legible())
  {
    var size := file.Size();
    var start, truncated := if size > RUN_INLINE_CAP then size - RUN_INLINE_CAP else 0, size > RUN_INLINE_CAP;
    if !file.opens {
      return Tail([], Utf8, size, false);
    }
    var rest := file.content[start..];
    var broken := file.breaksAfter.Some? && file.breaksAfter.value < |rest|;
    var buf := if broken then rest[..file.breaksAfter.value] else rest;
    var (data, encoding) := EncodeBytes(buf, utf8);
    FieldRoundTrip(buf, utf8);
    assert start == 0 ==> rest == file.content;
    return Tail(data, encoding, size, truncated);
  }

  class ProcessDir {
    var present: bool
    const stdout: Captured
    const stderr: Captured

    constructor (stdout: Captured, stderr: Captured)
      ensures present && this.stdout == stdout && this.stderr == stderr
    {
      present, this.stdout, this.stderr := true, stdout, stderr;
    }

    /** Build the answer, then remove the directory if the answer is short enough. */
    method Complete(ephemeral: bool, utf8: seq<byte> -> bool) returns (out: Tail, err: Tail)
      requires present
      modifies this
      ensures present <==> !ephemeral || out.size > RUN_EPHEMERAL_CAP || err.size > RUN_EPHEMERAL_CAP
      ensures out.size == stdout.Size() && err.size == stderr.Size()
      ensures !present ==> (out.Bytes() == Ok(stdout.content) <==> stdout.Legible())
      ensures !present ==> (err.Bytes() == Ok(stderr.content) <==> stderr.Legible())
      ensures !present ==> !out.truncated && !err.truncated
    {
      out := ReadTail(stdout, utf8);
      err := ReadTail(stderr, utf8);
      MaybeEphemeralClean(out, err, ephemeral);
    }

    method MaybeEphemeralClean(out: Tail, err: Tail, ephemeral: bool)
      requires present
      modifies this
      ensures present <==> || !ephemeral || out.truncated || err.truncated
                           || out.size > RUN_EPHEMERAL_CAP || err.size > RUN_EPHEMERAL_CAP
    {
      if !ephemeral {
        return;
      }
      if out.truncated || err.truncated {
        return;
      }
      if out.size > RUN_EPHEMERAL_CAP || err.size > RUN_EPHEMERAL_CAP {
        return;
      }
      present := false;
    }
  }

  /** A stream that cannot be opened is deleted although the caller has seen none of it. */
  method UnreadableOutputLost(utf8: seq<byte> -> bool) returns (dir: ProcessDir, out: Tail, err: Tail)
    ensures !dir.present && dir.stdout.content == [7] && out.Bytes() != Ok(dir.stdout.content) && !out.truncated
  {
    dir := new ProcessDir(Captured([7], true, false, None), Captured([], true, true, None));
    out, err := dir.Complete(true, utf8);
  }
}
