/** The local copy of a remote output stream (src/daemon/stream.rs), and `follow`, the remote
    command it is fed by (src/remote/actions.rs). Scripts stand for the remote machine, the
    connection, the local disk and the cleaner; any script is possible, except a clean
    between taking the offset and opening the file. */
module Replica {
  import opened Common
  import opened Paging
  import opened Streams

  const BUFFER := 8192

  // ---- The remote machine ----------------------------------------------------

  /** What happens between two system calls of `follow`: output is written, then the terminal
      status recorded, then the directory removed, or any part of that. */
  datatype Tick = Tick(written: seq<byte>, finishes: bool, removed: bool)

  /** `mark` is how much had been written when the terminal status was recorded. */
  class Remote {
    var content: seq<byte>
    var terminal: bool
    var mark: nat
    var present: bool

    constructor (content: seq<byte>)
      ensures Valid() && this.content == content && !terminal && present
    {
      this.content, terminal, mark, present := content, false, 0, true;
    }

    ghost predicate Valid()
      reads this
    {
      terminal ==> mark <= |content|
    }

    twostate predicate Grew()
      reads this
    {
      && old(content) <= content
      && (old(terminal) ==> terminal && mark == old(mark))
      && (present ==> old(present))
    }

    method Pass(t: Tick)
      requires Valid()
      modifies this
      ensures Valid() && Grew()
      ensures content == old(content) + t.written
      ensures present == (old(present) && !t.removed)
      ensures terminal == (old(terminal) || (t.finishes && old(present)))
      ensures terminal && !old(terminal) ==> mark == |content|
    {
      content := content + t.written;
      if t.finishes && present && !terminal {
        terminal, mark := true, |content|;
      }
      present := present && !t.removed;
    }
  }

  // ---- follow ----------------------------------------------------------------

  /** One system call: what happens before it, and how a read fares. */
  datatype Turn = Turn(before: Tick, take: Option<nat>)

  predicate Readable(turns: seq<Turn>) {
    forall i :: 0 <= i < |turns| ==> turns[i].take.Some?
  }

  /** Reads work, nothing is written and nothing is removed. */
  predicate Still(turns: seq<Turn>) {
    Readable(turns) && Kept(turns) && forall i :: 0 <= i < |turns| ==> turns[i].before.written == []
  }

  predicate Kept(turns: seq<Turn>) {
    forall i :: 0 <= i < |turns| ==> !turns[i].before.removed
  }

  /** How much is written during these calls. */
  function Total(turns: seq<Turn>): nat {
    if turns == [] then 0 else |turns[0].before.written| + Total(turns[1..])
  }

  lemma {:induction false} StillTotal(turns: seq<Turn>)
    requires Still(turns)
    ensures Total(turns) == 0
  {
    if turns != [] {
      StillTotal(turns[1..]);
    }
  }

  lemma TotalFrom(turns: seq<Turn>, i: nat)
    requires i < |turns|
    ensures Total(turns[i..]) == |turns[i].before.written| + Total(turns[i + 1..])
  {
    assert turns[i..][1..] == turns[i + 1..];
  }

  /** From call k on the stream stands still and the status is terminal, and enough calls
      follow to read all that is `ahead` or will be written, with `slack` to spare. */
  predicate Settles(turns: seq<Turn>, k: nat, present: bool, terminal: bool, ahead: nat, slack: nat) {
    && k <= |turns| && present && Readable(turns)
    && Kept(turns)
    && (forall i :: k <= i < |turns| ==> turns[i].before.written == [])
    && (terminal || exists j :: 0 <= j < k && turns[j].before.finishes)
    && |turns| - k >= ahead + Total(turns) + slack
  }

  ghost predicate EndsInTime(turns: seq<Turn>, present: bool, terminal: bool, ahead: nat, slack: nat) {
    exists k: nat :: Settles(turns, k, present, terminal, ahead, slack)
  }

  /** The same after i calls, with `left` bytes to go. */
  predicate OnTime(turns: seq<Turn>, k: nat, i: nat, present: bool, terminal: bool, left: int) {
    && i <= |turns| && k <= |turns| && present && Readable(turns)
    && Kept(turns)
    && (terminal || exists j :: i <= j < k && turns[j].before.finishes)
    && |turns| - (if i < k then k else i) >= left + 3
  }

  lemma OnTimeReads(turns: seq<Turn>, k: nat, i: nat, terminal: bool, left: int, n: nat)
    requires OnTime(turns, k, i, true, terminal, left) && 1 <= n <= left
    ensures i < |turns| && !turns[i].before.removed
    ensures OnTime(turns, k, i + 1, true, terminal || turns[i].before.finishes, left - n)
  {
  }

  /** An empty read and a look at the status: either that is terminal, and the calls left do
      for the drain, or the wait was in time. */
  lemma OnTimeWaits(turns: seq<Turn>, k: nat, i: nat, present: bool, terminal: bool, left: int)
    requires OnTime(turns, k, i, present, terminal, left) && left >= 0
    ensures present && i + 2 < |turns| && Readable(turns) && !turns[i].before.removed && !turns[i + 1].before.removed
    ensures |turns[i + 2..]| > left
    ensures !(terminal || turns[i].before.finishes || turns[i + 1].before.finishes) ==>
      OnTime(turns, k, i + 2, true, false, left)
  {
  }

  /** Opening the file takes one call. */
  lemma OpenInTime(turns: seq<Turn>, present: bool, terminal: bool, ahead: nat)
    requires EndsInTime(turns, present, terminal, ahead, 4)
    ensures turns != [] && present && !turns[0].before.removed
    ensures EndsInTime(turns[1..], present, terminal || turns[0].before.finishes,
                       ahead + |turns[0].before.written|, 3)
  {
    var k: nat :| Settles(turns, k, present, terminal, ahead, 4);
    var rest := turns[1..];
    assert forall i :: 0 <= i < |rest| ==> rest[i] == turns[i + 1];
    if !terminal && !turns[0].before.finishes {
      var j :| 0 <= j < k && turns[j].before.finishes;
      assert rest[j - 1].before.finishes;
    }
    assert Settles(rest, if k == 0 then 0 else k - 1, present, terminal || turns[0].before.finishes,
                   ahead + |turns[0].before.written|, 3);
  }

  /** How `follow` comes to its end; all but `Killed` are a successful exit. */
  datatype End = Complete | Missing | Unreadable | Killed

  lemma MoreOf(front: seq<byte>, out: seq<byte>, got: seq<byte>, content: seq<byte>, n: nat)
    requires front + out <= content && got <= Slice(content, |front + out|, n)
    ensures front + (out + got) <= content
  {
    var pos := |front + out|;
    TakeMore(content, pos, pos + |got|);
    assert got == content[pos..pos + |got|];
    Assoc(front, out, got);
  }

  lemma StillThere(a: seq<byte>, b: seq<byte>, c: seq<byte>)
    requires a <= b && b <= c
    ensures a <= c
  {
  }

  /** `front` is what the offset skips. The script runs out when the connection is gone. */
  method Follow(remote: Remote, offset: nat, turns: seq<Turn>, ghost front: seq<byte>)
    returns (out: seq<byte>, end: End)
    requires remote.Valid() && front <= remote.content && |front| == offset
    modifies remote
    ensures remote.Valid() && remote.Grew() && front + out <= remote.content
    ensures end == Complete ==> remote.terminal && remote.mark <= offset + |out| && front + out == remote.content
    ensures EndsInTime(turns, old(remote.present), old(remote.terminal), |old(remote.content)| - offset, 4) ==>
      end == Complete
    ensures Still(turns) ==> remote.content == old(remote.content) && remote.present == old(remote.present)
    ensures end == Missing <==> turns != [] && (!old(remote.present) || turns[0].before.removed)
    ensures end == Missing ==> out == [] && !remote.present
    ensures Readable(turns) ==> end != Unreadable
  {
    out := [];
    assert front + out == front;
    if turns == [] {
      return out, Killed;
    }
    ghost var inTime := EndsInTime(turns, remote.present, remote.terminal, |remote.content| - offset, 4);
    if inTime {
      OpenInTime(turns, remote.present, remote.terminal, |remote.content| - offset);
    }
    remote.Pass(turns[0].before);
    if !remote.present {
      return out, Missing;
    }
    out, end := FollowOpen(remote, offset, turns[1..], front);
    if Still(turns) {
      StillTotal(turns[1..]);
      assert old(remote.content) + [] == old(remote.content);
    }
  }

  /** The loop, with the file open. Once the directory is gone the status can never be read
      again: only a failing read or a broken connection ends it then. */
  method FollowOpen(remote: Remote, offset: nat, turns: seq<Turn>, ghost front: seq<byte>)
    returns (out: seq<byte>, end: End)
    requires remote.Valid() && front <= remote.content && |front| == offset
    modifies remote
    ensures remote.Valid() && remote.Grew() && front + out <= remote.content
    ensures end == Complete ==> remote.terminal && remote.mark <= offset + |out| && front + out == remote.content
    ensures EndsInTime(turns, old(remote.present), old(remote.terminal), |old(remote.content)| - offset, 3) ==>
      end == Complete
    ensures |remote.content| <= |old(remote.content)| + Total(turns)
    ensures Kept(turns) ==> remote.present == old(remote.present)
    ensures end != Missing && (Readable(turns) ==> end != Unreadable)
    ensures !old(remote.present) ==> end != Complete
    ensures !old(remote.present) && Readable(turns) ==> end == Killed
  {
    ghost var inTime := EndsInTime(turns, remote.present, remote.terminal, |remote.content| - offset, 3);
    ghost var k: nat := 0;
    if inTime {
      k :| Settles(turns, k, remote.present, remote.terminal, |remote.content| - offset, 3);
    }
    out, end := FollowLoop(remote, offset, turns, front, inTime, k);
  }

  /** With `inTime`, the calls are known to do. */
  method FollowLoop(remote: Remote, offset: nat, turns: seq<Turn>, ghost front: seq<byte>,
                    ghost inTime: bool, ghost k: nat)
    returns (out: seq<byte>, end: End)
    requires remote.Valid() && front <= remote.content && |front| == offset
    requires inTime ==>
      OnTime(turns, k, 0, remote.present, remote.terminal, |remote.content| + Total(turns) - offset)
    modifies remote
    ensures remote.Valid() && remote.Grew() && front + out <= remote.content
    ensures end == Complete ==> remote.terminal && remote.mark <= offset + |out| && front + out == remote.content
    ensures inTime ==> end == Complete
    ensures |remote.content| <= |old(remote.content)| + Total(turns)
    ensures Kept(turns) ==> remote.present == old(remote.present)
    ensures end != Missing && (Readable(turns) ==> end != Unreadable)
    ensures !old(remote.present) ==> end != Complete
  {
    out := [];
    assert front + out == front && turns[0..] == turns;
    ghost var all := |remote.content| + Total(turns);
    var i := 0;
    while i < |turns|
      invariant 0 <= i <= |turns| && remote.Valid() && remote.Grew() && front + out <= remote.content
      invariant |remote.content| + Total(turns[i..]) == all && (Kept(turns) ==> remote.present == old(remote.present))
      invariant inTime ==> OnTime(turns, k, i, remote.present, remote.terminal, all - (offset + |out|))
    {
      hide OnTime, Total;
      var next;
      out, i, next := FollowTurn(remote, offset, turns, i, front, out, inTime, k, all);
      match next
      case GoOn =>
      case Stop(e) => return out, e;
      case Over =>
        out, end := Drain(remote, offset, turns[i..], front, out);
        return;
    }
    return out, Killed;
  }

  datatype Next = GoOn | Over | Stop(end: End)

  /** A read, and, if it is empty, a look at the status. */
  method FollowTurn(remote: Remote, offset: nat, turns: seq<Turn>, at: nat, ghost front: seq<byte>, sent: seq<byte>,
                    ghost inTime: bool, ghost k: nat, ghost all: nat)
    returns (out: seq<byte>, i: nat, next: Next)
    requires at < |turns| && remote.Valid() && front + sent <= remote.content && |front| == offset
    requires |remote.content| + Total(turns[at..]) == all
    requires inTime ==> OnTime(turns, k, at, remote.present, remote.terminal, all - (offset + |sent|))
    modifies remote
    ensures remote.Valid() && remote.Grew() && front + out <= remote.content && at < i <= |turns|
    ensures |remote.content| + Total(turns[i..]) == all && (Kept(turns) ==> remote.present == old(remote.present))
    ensures match next
            case GoOn => inTime ==> OnTime(turns, k, i, remote.present, remote.terminal, all - (offset + |out|))
            case Over => && remote.present && remote.terminal
                         && (inTime ==> Readable(turns) && |turns[i..]| > all - (offset + |out|))
            case Stop(end) => !inTime && (end == Killed || (end == Unreadable && !Readable(turns)))
  {
    ghost var left, was := all - (offset + |sent|), remote.terminal;
    if inTime {
      OnTimeWaits(turns, k, at, remote.present, was, left);
    }
    TotalFrom(turns, at);
    hide OnTime, Total;
    out, i := sent, at + 1;
    var got := ReadOn(remote, offset + |sent|, turns[at], front, sent);
    if got.None? {
      return out, i, Stop(Unreadable);
    }
    if got.value != [] {
      if inTime {
        OnTimeReads(turns, k, at, was, left, |got.value|);
      }
      return out + got.value, i, GoOn;
    }
    if i == |turns| {
      return out, i, Stop(Killed);
    }
    TotalFrom(turns, i);
    remote.Pass(turns[i].before);
    i := i + 1;
    next := if remote.present && remote.terminal then Over else GoOn;
  }

  /** One read at the end of what has been sent. */
  method ReadOn(remote: Remote, pos: nat, turn: Turn, ghost front: seq<byte>, ghost out: seq<byte>)
    returns (got: Option<seq<byte>>)
    requires remote.Valid() && front + out <= remote.content && pos == |front| + |out|
    modifies remote
    ensures remote.Valid() && remote.Grew() && front + out <= remote.content
    ensures got.Some? ==> front + (out + got.value) <= remote.content
    ensures got == Some([]) ==> front + out == remote.content
    ensures remote.content == old(remote.content) + turn.before.written
    ensures remote.present == (old(remote.present) && !turn.before.removed)
    ensures remote.terminal == (old(remote.terminal) || (turn.before.finishes && old(remote.present)))
    ensures got.None? <==> turn.take.None?
  {
    remote.Pass(turn.before);
    got := FileRead(remote.content, pos, BUFFER, turn.take);
    if got.Some? {
      MoreOf(front, out, got.value, remote.content, BUFFER);
      assert |front + out| == pos;
    }
  }

  /** The final drain, up to the first empty read. */
  method Drain(remote: Remote, offset: nat, turns: seq<Turn>, ghost front: seq<byte>, sent: seq<byte>)
    returns (out: seq<byte>, end: End)
    requires remote.Valid() && front + sent <= remote.content && |front| == offset && remote.terminal
    modifies remote
    ensures remote.Valid() && remote.Grew() && front + out <= remote.content
    ensures end == Complete ==> remote.terminal && remote.mark <= offset + |out| && front + out == remote.content
    ensures Readable(turns) && |turns| > |old(remote.content)| + Total(turns) - (offset + |sent|) ==> end == Complete
    ensures |remote.content| <= |old(remote.content)| + Total(turns)
    ensures Kept(turns) ==> remote.present == old(remote.present)
    ensures end != Missing && (Readable(turns) ==> end != Unreadable)
  {
    out := sent;
    assert turns[0..] == turns;
    ghost var all := |remote.content| + Total(turns);
    ghost var enough := |turns| > all - (offset + |sent|);
    var i := 0;
    while i < |turns|
      invariant 0 <= i <= |turns| && remote.Valid() && remote.Grew() && remote.terminal && front + out <= remote.content
      invariant |remote.content| + Total(turns[i..]) == all
      invariant Kept(turns) ==> remote.present == old(remote.present)
      invariant enough ==> |turns| - i > all - (offset + |out|)
    {
      TotalFrom(turns, i);
      var got := ReadOn(remote, offset + |out|, turns[i], front, out);
      i := i + 1;
      if got.None? {
        return out, Unreadable;
      }
      if got.value == [] {
        return out, Complete;
      }
      out := out + got.value;
    }
    return out, Killed;
  }

  // ---- One connection --------------------------------------------------------

  /** How one attempt fares: the local steps before the first byte, the remote end, how many
      bytes the connection carries before it breaks, in what pieces and with what ending they
      arrive, how many bytes the local disk takes, whether the local directory is cleaned
      before, or after so many pieces, and how the ssh process ends. */
  datatype Attempt = Attempt(
    cleanedBefore: bool, makesDir: bool, spawns: bool, turns: seq<Turn>, opens: bool,
    cut: Option<nat>, pieces: seq<nat>, breaks: bool, room: Option<nat>, cleanedAfter: Option<nat>, exitsWell: bool)

  /** The file under its path. */
  class Local {
    var content: Option<seq<byte>>

    constructor ()
      ensures content == None
    {
      content := None;
    }
  }

  function Arrivals(bytes: seq<byte>, pieces: seq<nat>, breaks: bool): (script: seq<ReadEvent>)
    ensures Streams.Bytes(script) == bytes && EndsWell(script) == !breaks
    decreases |pieces|, |bytes|
  {
    if bytes == [] then (if breaks then [ReadEvent.Failed] else [])
    else if pieces == [] then
      assert bytes + [] == bytes;
      [Data(bytes)] + Arrivals([], [], breaks)
    else if pieces[0] == 0 then [Interrupted] + Arrivals(bytes, pieces[1..], breaks)
    else
      var n := Min(pieces[0], |bytes|);
      assert bytes[..n] + bytes[n..] == bytes;
      [Data(bytes[..n])] + Arrivals(bytes[n..], pieces[1..], breaks)
  }

  function Carried(cut: Option<nat>, out: seq<byte>): (c: seq<byte>)
    ensures c <= out && (cut.None? ==> c == out)
  {
    Accepted(cut, out)
  }

  ghost predicate Mirrors(local: Local, remote: Remote)
    reads local, remote
  {
    local.content.Some? ==> local.content.value <= remote.content
  }

  /** The copy holds all that was written before the terminal status was recorded. */
  ghost predicate Holds(local: Local, remote: Remote)
    reads local, remote
  {
    local.content.Some? && remote.terminal && remote.mark <= |local.content.value|
  }

  /** What of the bytes sent ends up under the path. */
  method RunFollow(remote: Remote, local: Local, resume: nat, a: Attempt) returns (ok: bool, end: End)
    requires remote.Valid() && Mirrors(local, remote) && resume == |local.content.GetOr([])|
    modifies remote, local
    ensures remote.Valid() && remote.Grew() && Mirrors(local, remote)
    ensures ok ==> end != Killed && a.makesDir && a.spawns && a.opens && a.cut.None? && !a.breaks && a.exitsWell
    ensures ok && a.cleanedAfter.None? && end == Complete ==>
      Holds(local, remote) && local.content == Some(remote.content)
    ensures WentWell(a) && a.room.None? && end != Killed ==> ok
    ensures (&& WentWell(a)
             && EndsInTime(a.turns, old(remote.present), old(remote.terminal), |old(remote.content)| - resume, 4)) ==>
      end == Complete
    ensures Still(a.turns) ==> remote.content == old(remote.content) && remote.present == old(remote.present)
    ensures ok && a.cleanedAfter.None? && end == Missing ==>
      && local.content == Some(old(local.content).GetOr([]))
      && (Holds(local, remote) <==> remote.terminal && remote.mark <= resume)
    ensures (ok && end == Missing ==> !remote.present) && (Readable(a.turns) ==> end != Unreadable)
    ensures a.cleanedAfter.None? && local.content.Some? ==> old(local.content).GetOr([]) <= local.content.value
    ensures a.cleanedAfter.None? && old(local.content).Some? ==> local.content.Some?
    ensures a.turns != [] && !old(remote.present) && a.cleanedAfter.None? && WentWell(a) ==>
              ok && end == Missing && local.content == Some(old(local.content).GetOr([]))
  {
    if !a.makesDir || !a.spawns {
      return false, Killed;
    }
    ghost var front := local.content.GetOr([]);
    var out;
    out, end := Follow(remote, resume, a.turns, front);
    if !a.opens {
      return false, end;
    }
    if local.content.None? {
      local.content := Some([]);
    }
    var copied := Copy(remote, local, out, a, front);
    ok := copied && a.exitsWell && a.cut.None? && end != Killed;
  }

  predicate WentWell(a: Attempt) {
    a.makesDir && a.spawns && a.opens && a.cut.None? && !a.breaks && a.exitsWell
  }

  lemma Landed(front: seq<byte>, arrived: seq<byte>, bytes: seq<byte>, written: seq<byte>,
               rest: seq<byte>, out: seq<byte>)
    requires written <= bytes && arrived + (bytes + rest) <= out
    ensures (front + arrived) + bytes == front + (arrived + bytes) && (front + arrived) + written <= front + out
    ensures (arrived + bytes) + rest == arrived + (bytes + rest)
  {
    assert bytes == written + bytes[|written|..];
    var more := out[|arrived + (bytes + rest)|..];
    assert out == arrived + (written + bytes[|written|..] + rest) + more;
    assert front + out == ((front + arrived) + written) + (bytes[|written|..] + rest + more);
  }

  /** Append one piece to the file that was opened. */
  method Land(remote: Remote, local: Local, linked: bool, room: Option<nat>, bytes: seq<byte>,
              ghost front: seq<byte>, ghost arrived: seq<byte>, ghost rest: seq<byte>, ghost out: seq<byte>)
    returns (ok: bool)
    requires front + out <= remote.content && arrived + (bytes + rest) <= out
    requires if linked then local.content == Some(front + arrived) else local.content.None?
    modifies local
    ensures Mirrors(local, remote)
    ensures Fits(room, bytes + rest) <==> ok && Fits(RoomAfter(room, |bytes|), rest)
    ensures (arrived + bytes) + rest == arrived + (bytes + rest)
    ensures if linked then local.content.Some? && front <= local.content.value else local.content.None?
    ensures ok && linked ==> local.content == Some(front + (arrived + bytes))
  {
    var written := Accepted(room, bytes);
    Landed(front, arrived, bytes, written, rest, out);
    FitsPiecewise(room, bytes, rest);
    StillThere((front + arrived) + written, front + out, remote.content);
    if linked {
      Assoc(front, arrived, written);
      local.content := Some(local.content.value + written);
    }
    ok := Fits(room, bytes);
  }

  /** Whether the path still names the open file. A clean takes the path only. */
  method StillLinked(local: Local, linked: bool, cleaned: bool) returns (still: bool)
    modifies local
    ensures still <==> linked && !cleaned
    ensures local.content == if linked && cleaned then None else old(local.content)
  {
    if linked && cleaned {
      local.content := None;
    }
    still := linked && !cleaned;
  }

  /** The read loop of one connection. */
  method Copy(remote: Remote, local: Local, out: seq<byte>, a: Attempt, ghost front: seq<byte>) returns (ok: bool)
    requires front + out <= remote.content && local.content == Some(front)
    modifies local
    ensures Mirrors(local, remote)
    ensures a.cleanedAfter.None? ==> local.content.Some? && front <= local.content.value
    ensures ok && a.cut.None? && a.cleanedAfter.None? ==> local.content == Some(front + out)
    ensures ok <==> !a.breaks && Fits(a.room, Carried(a.cut, out))
    ensures out == [] && a.cleanedAfter.None? ==> local.content == Some(front)
  {
    var carried := Carried(a.cut, out);
    var source := new Source(Arrivals(carried, a.pieces, a.breaks));
    ghost var arrived: seq<byte> := [];
    var linked, room, count := true, a.room, 0;
    assert front + [] == front && [] + carried == carried;
    StillThere(front, front + out, remote.content);
    hide Accepted, RoomAfter, Fits, Carried, Arrivals, ReadStep, EndsWell, Streams.Bytes, Weight;
    while true
      invariant arrived + Streams.Bytes(source.script) == carried && Mirrors(local, remote)
      invariant EndsWell(source.script) == !a.breaks
      invariant Fits(a.room, carried) <==> Fits(room, Streams.Bytes(source.script))
      invariant if linked then local.content == Some(front + arrived) else local.content.None? && a.cleanedAfter.Some?
      decreases Weight(source.script)
    {
      linked := StillLinked(local, linked, a.cleanedAfter == Some(count));
      count := count + 1;
      var r := source.Read(BUFFER);
      match r
      case ReadInterrupted => continue;
      case ReadFailed => return false;
      case Got(bytes) =>
        if bytes == [] {
          break;
        }
        var fits := Land(remote, local, linked, room, bytes, front, arrived, Streams.Bytes(source.script), out);
        if !fits {
          return false;
        }
        room := RoomAfter(room, |bytes|);
        arrived := arrived + bytes;
    }
    NothingLeft(room);
    assert arrived + [] == arrived;
    ok := true;
  }

  lemma NothingLeft(room: Option<nat>)
    ensures Streams.Bytes([]) == [] && EndsWell([]) && Fits(room, [])
  {
  }

  lemma FitsPiecewise(room: Option<nat>, bytes: seq<byte>, rest: seq<byte>)
    ensures Fits(room, bytes + rest) <==> Fits(room, bytes) && Fits(RoomAfter(room, |bytes|), rest)
  {
  }

  // ---- Connection after connection -------------------------------------------

  /** Until one ends well, each resuming where the local file ends. `used` attempts are made,
      and `end` is how the last one ended on the remote machine. */
  method StreamWithRetry(remote: Remote, local: Local, attempts: seq<Attempt>)
    returns (done: bool, end: End, used: nat)
    requires remote.Valid() && Mirrors(local, remote)
    modifies remote, local
    ensures remote.Valid() && remote.Grew() && Mirrors(local, remote)
    ensures used <= |attempts| && (done ==> used > 0 && end != Killed) && (!done ==> used == |attempts|)
    ensures done && end == Complete && attempts[used - 1].cleanedAfter.None? ==>
      Holds(local, remote) && local.content == Some(remote.content)
    ensures (&& old(remote.present) && old(remote.terminal) && AllStill(attempts)
             && exists i :: 0 <= i < |attempts| && Succeeds(attempts[i], |old(remote.content)|)) ==>
      done && end == Complete && remote.content == old(remote.content)
    ensures done ==> end == Complete || !remote.present || !Readable(attempts[used - 1].turns)
    ensures Quiet(attempts[..used]) ==> old(local.content).GetOr([]) <= local.content.GetOr([])
    ensures attempts != [] && Reaches(attempts[0]) && !old(remote.present) ==>
              done && used == 1 && end == Missing && local.content == Some(old(local.content).GetOr([]))
  {
    used, end, done := 0, Killed, false;
    while used < |attempts|
      invariant used <= |attempts| && remote.Valid() && remote.Grew() && Mirrors(local, remote)
      invariant Quiet(attempts[..used]) ==> old(local.content).GetOr([]) <= local.content.GetOr([])
      invariant used == 0 ==> local.content == old(local.content) && remote.present == old(remote.present)
      invariant used > 0 && Reaches(attempts[0]) ==> old(remote.present)
      invariant AllStill(attempts) ==> remote.content == old(remote.content) && remote.present == old(remote.present)
      invariant old(remote.present) && old(remote.terminal) && AllStill(attempts) ==>
        forall i :: 0 <= i < used ==> !Succeeds(attempts[i], |old(remote.content)|)
    {
      var a := attempts[used];
      QuietGrows(attempts, used);
      used := used + 1;
      if a.cleanedBefore {
        local.content := None;
      }
      var resume := |local.content.GetOr([])|;
      StillSucceeds(a, |remote.content|, resume);
      hide Quiet, EndsInTime, Succeeds;
      done, end := RunFollow(remote, local, resume, a);
      if done {
        return;
      }
    }
  }

  /** The process is over and nothing changes any more. */
  predicate AllStill(attempts: seq<Attempt>) {
    forall i :: 0 <= i < |attempts| ==> Still(attempts[i].turns)
  }

  /** An attempt in which nothing goes wrong, with calls enough for a stream of this size. */
  predicate Succeeds(a: Attempt, size: nat) {
    WentWell(a) && a.room.None? && |a.turns| >= size + 4
  }

  lemma StillInTime(turns: seq<Turn>, ahead: nat)
    requires Still(turns) && |turns| >= ahead + 4
    ensures EndsInTime(turns, true, true, ahead, 4)
  {
    StillTotal(turns);
    assert Settles(turns, 0, true, true, ahead, 4);
  }

  lemma StillSucceeds(a: Attempt, size: nat, resume: nat)
    requires resume <= size
    ensures Still(a.turns) && Succeeds(a, size) ==>
      WentWell(a) && a.room.None? && EndsInTime(a.turns, true, true, size - resume, 4)
  {
    if Still(a.turns) && Succeeds(a, size) {
      StillInTime(a.turns, size - resume);
    }
  }

  /** Nobody cleans the local directory during these attempts. */
  predicate Quiet(attempts: seq<Attempt>) {
    forall i :: 0 <= i < |attempts| ==> !attempts[i].cleanedBefore && attempts[i].cleanedAfter.None?
  }

  lemma QuietGrows(attempts: seq<Attempt>, used: nat)
    requires used < |attempts|
    ensures Quiet(attempts[..0])
    ensures Quiet(attempts[..used + 1]) <==>
      Quiet(attempts[..used]) && !attempts[used].cleanedBefore && attempts[used].cleanedAfter.None?
  {
    var more := attempts[..used + 1];
    assert more[..used] == attempts[..used] && more[used] == attempts[used];
    if Quiet(attempts[..used]) && !attempts[used].cleanedBefore && attempts[used].cleanedAfter.None? {
      forall i | 0 <= i < |more| ensures !more[i].cleanedBefore && more[i].cleanedAfter.None? {
        assert i < used ==> more[i] == attempts[..used][i];
      }
    }
  }

  /** An attempt in which nothing goes wrong and nobody cleans. */
  predicate Reaches(a: Attempt) {
    WentWell(a) && a.turns != [] && !a.cleanedBefore && a.cleanedAfter.None?
  }

  const FLAWLESS :=
    Attempt(false, true, true, [Turn(Tick([], false, false), Some(1))], true, None, [], false, None, None, true)

  /** A stream whose directory was cleaned remotely ends well all the same, without its tail. */
  method EndsWithoutTheTail() returns (remote: Remote, local: Local, done: bool)
    ensures done && local.content == Some([]) && remote.terminal && [7] <= remote.content && remote.mark == 1
  {
    remote := new Remote([7]);
    remote.Pass(Tick([], true, true));
    assert [7] + [] == [7];
    local := new Local();
    var end, used;
    assert remote.content == [7];
    done, end, used := StreamWithRetry(remote, local, [FLAWLESS]);
  }
}
