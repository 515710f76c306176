/** The daemon's cache of captured output: starting, reading and cleaning
    (src/daemon/server.rs). One call is one step here. */
module Daemon {
  import opened Common
  import opened Base64
  import opened CachePaths
  import opened Paging
  import Replica

  datatype Key = Key(host: Text, id: Text, name: Name)

  datatype StartReply = Started(id: Text) | NotStarted

  function Path(base: Text, key: Key): Text {
    CacheFile(base, key.host, key.id, key.name)
  }

  /** Everything that the processes have written to their streams so far. */
  type Outputs = map<Key, seq<byte>>

  function Of(written: Outputs, key: Key): seq<byte> {
    if key in written then written[key] else []
  }

  const RUNNING: Text := [114, 117, 110, 110, 105, 110, 103]

  function Cached(files: map<Text, seq<byte>>, path: Text): seq<byte> {
    if path in files then files[path] else []
  }

  ghost predicate Mirrored(base: Text, files: map<Text, seq<byte>>, written: Outputs) {
    forall key: Key :: key.name != Status && Path(base, key) in files ==> files[Path(base, key)] <= Of(written, key)
  }

  /** The files after one of them is continued, or gone. */
  function Updated(files: map<Text, seq<byte>>, path: Text, content: Option<seq<byte>>): map<Text, seq<byte>> {
    if content.Some? then files[path := content.value] else files - {path}
  }

  lemma MirroredFurther(base: Text, files: map<Text, seq<byte>>, written: Outputs, key: Key,
                        local: Option<seq<byte>>, content: seq<byte>)
    requires Mirrored(base, files, written) && (local.Some? ==> local.value <= content)
    ensures Mirrored(base, Updated(files, Path(base, key), local), written[key := content])
  {
    forall k: Key | Path(base, k) == Path(base, key)
      ensures k == key
    {
      CacheFilesDistinct(base, k.host, k.id, k.name, key.host, key.id, key.name);
    }
    hide Path;
  }

  /** One connection, continuing what is in the file. */
  method Connect(before: Option<seq<byte>>, remote: Replica.Remote, a: Replica.Attempt)
    returns (ok: bool, end: Replica.End, after: Option<seq<byte>>)
    requires remote.Valid() && (before.Some? ==> before.value <= remote.content)
    modifies remote
    ensures remote.Valid() && remote.Grew() && (after.Some? ==> after.value <= remote.content)
    ensures a.cleanedAfter.None? && before.Some? ==> after.Some? && before.value <= after.value
    ensures ok && end == Replica.Complete && a.cleanedAfter.None? ==> remote.terminal && after == Some(remote.content)
    ensures var ahead := |old(remote.content)| - |before.GetOr([])|;
      Replica.WentWell(a) && a.room.None?
      && Replica.EndsInTime(a.turns, old(remote.present), old(remote.terminal), ahead, 4) ==>
        ok && end == Replica.Complete
  {
    var local := new Replica.Local();
    local.content := before;
    hide Replica.EndsInTime, Replica.WentWell, Replica.Still, Replica.Readable;
    ok, end := Replica.RunFollow(remote, local, |before.GetOr([])|, a);
    after := local.content;
  }

  class State {
    const base: Text
    var files: map<Text, seq<byte>>    // the cache directory
    var hosts: map<Text, set<Text>>    // tracked processes

    constructor (base: Text)
      ensures this.base == base && files == map[] && hosts == map[]
    {
      this.base, files, hosts := base, map[], map[];
    }

    /** Every cached stream is a prefix of what its process has written. */
    ghost predicate Mirrors(written: Outputs)
      reads this
    {
      Mirrored(base, files, written)
    }

    /** Output is only ever appended to. */
    lemma MirrorsStay(written: Outputs, key: Key, content: seq<byte>)
      requires Mirrors(written) && Of(written, key) <= content
      ensures Mirrors(written[key := content])
    {
      hide Path;
    }

    method HandleStart(host: Text, reply: StartReply, ghost written: Outputs)
      requires Mirrors(written)
      modifies this`files, this`hosts
      ensures Mirrors(written)
      ensures reply.NotStarted? ==> files == old(files) && hosts == old(hosts)
      ensures reply.Started? ==> && files == old(files)[Path(base, Key(host, reply.id, Status)) := RUNNING]
                                 && host in hosts && reply.id in hosts[host]
      ensures forall h :: h in old(hosts) ==> h in hosts && old(hosts)[h] <= hosts[h]
      ensures forall h, i :: h in hosts && i in hosts[h] ==>
        (h in old(hosts) && i in old(hosts)[h]) || reply == Started(i)
      ensures forall key: Key :: key.name != Status && Path(base, key) in files ==>
        Path(base, key) in old(files) && files[Path(base, key)] == old(files)[Path(base, key)]
    {
      if reply.Started? {
        var path := Path(base, Key(host, reply.id, Status));
        files := files[path := RUNNING];
        forall key: Key | Path(base, key) == path
          ensures key.name == Status
        {
          CacheFilesDistinct(base, key.host, key.id, key.name, host, reply.id, Status);
        }
        var ids := if host in hosts then hosts[host] else {};
        hosts := hosts[host := ids + {reply.id}];
      }
    }

    /** One connection of a stream thread: the cached file of this stream is continued from
        where it ends, created first if need be, or gone if the host was cleaned meanwhile. */
    method Stream(host: Text, id: Text, name: Name, remote: Replica.Remote, a: Replica.Attempt,
                  ghost written: Outputs)
      returns (ok: bool, end: Replica.End)
      requires name != Status && Mirrors(written)
      requires remote.Valid() && remote.content == Of(written, Key(host, id, name))
      modifies this`files, remote
      ensures Mirrors(written[Key(host, id, name) := remote.content]) && remote.Valid() && remote.Grew()
      ensures forall path :: path != CacheFile(base, host, id, name) ==>
        (path in files <==> path in old(files)) && (path in files ==> files[path] == old(files)[path])
      ensures a.cleanedAfter.None? && CacheFile(base, host, id, name) in old(files) ==>
        && CacheFile(base, host, id, name) in files
        && old(files)[CacheFile(base, host, id, name)] <= files[CacheFile(base, host, id, name)]
      ensures ok && end == Replica.Complete && a.cleanedAfter.None? ==>
        && remote.terminal && CacheFile(base, host, id, name) in files
        && files[CacheFile(base, host, id, name)] == remote.content
      ensures var ahead := |old(remote.content)| - |Cached(old(files), CacheFile(base, host, id, name))|;
        Replica.WentWell(a) && a.room.None?
        && Replica.EndsInTime(a.turns, old(remote.present), old(remote.terminal), ahead, 4) ==>
          ok && end == Replica.Complete
    {
      ghost var key := Key(host, id, name);
      var path := CacheFile(base, host, id, name);
      assert path == Path(base, key);
      assert path in files ==> files[path] <= Of(written, key);
      var before := if path in files then Some(files[path]) else None;
      assert before.GetOr([]) == Cached(files, path);
      hide Path, CacheFile, Cached, Mirrored, Replica.EndsInTime, Replica.WentWell;
      var after;
      ok, end, after := Connect(before, remote, a);
      MirroredFurther(base, files, written, key, after, remote.content);
      files := Updated(files, path, after);
    }

    /** From the cache if there is a file, else from the remote. `openable` and `take` are
        how the local file fares, `remote` the remote one, if the host can be reached. */
    method HandleRead(host: Text, id: Text, name: Name, offset: Option<nat>, limit: Option<nat>,
                      openable: bool, take: Option<nat>, reachable: bool, remote: Option<seq<byte>>,
                      utf8: seq<byte> -> bool, ghost written: Outputs)
      returns (r: Reply)
      requires name != Status && Mirrors(written) && (remote.Some? ==> remote.value <= Of(written, Key(host, id, name)))
      requires forall p :: p in files ==> |files[p]| <= MAX_SEEK   // off_t
      ensures Answers(r, Of(written, Key(host, id, name)), offset.GetOr(0), limit.GetOr(DEFAULT_READ_LIMIT))
      ensures r.Output? ==> Verbatim(r.data, r.encoding, r.Bytes(), utf8)
      ensures var path, off, lim := CacheFile(base, host, id, name), offset.GetOr(0), limit.GetOr(DEFAULT_READ_LIMIT);
        if path in files then
          && (r.Output? <==> openable) && (r.Output? ==> r.size == |files[path]|)
          && Answers(r, files[path], off, lim)
          && (r.Output? && take.Some? ==> r.Bytes() == Page(files[path], off, lim, take.value))
        else
          && (r.Output? <==> reachable && remote.Some? && off <= MAX_SEEK && take.Some?)
          && (r.Output? ==> r.size == |remote.value| && r.Bytes() == Page(remote.value, off, lim, take.value))
    {
      ghost var key := Key(host, id, name);
      var path := CacheFile(base, host, id, name);
      assert path == Path(base, key);
      hide CacheFile, Answers, Page;
      ghost var off, lim := offset.GetOr(0), limit.GetOr(DEFAULT_READ_LIMIT);
      if path in files {
        if !openable {
          return Failed(CacheUnreadable);
        }
        r := ReadCached(files[path], offset.GetOr(0), limit.GetOr(DEFAULT_READ_LIMIT), take, utf8);
        AnswersGrow(r, files[path], Of(written, key), off, lim);
      } else if !reachable {
        r := Failed(Transport);
      } else {
        r := ReadOutput(remote, remote.GetOr([]), offset, limit, take, utf8);
        if remote.Some? {
          AnswersGrow(r, remote.value, Of(written, key), off, lim);
        }
      }
    }

    /** The local half of a clean: everything of this host, and nothing else, whatever the
        remote answered. */
    method CleanLocal(host: Text, ghost written: Outputs)
      requires Mirrors(written)
      modifies this`files, this`hosts
      ensures Mirrors(written)
      ensures forall key: Key :: key.host == host ==> Path(base, key) !in files
      ensures forall key: Key :: key.host != host ==>
        && (Path(base, key) in files <==> Path(base, key) in old(files))
        && (Path(base, key) in files ==> files[Path(base, key)] == old(files)[Path(base, key)])
      ensures hosts.Keys == old(hosts).Keys
      ensures forall h :: h in hosts ==> hosts[h] == if h == host then {} else old(hosts)[h]
    {
      if host in hosts {
        hosts := hosts[host := {}];
      }
      var dir := HostDir(base, host);
      files := map path | path in files && !Below(path, dir) :: files[path];
      forall key: Key
        ensures Below(Path(base, key), dir) <==> key.host == host
      {
        BelowItsHost(base, key.host, key.id, key.name, host);
      }
    }
  }

  // ---- Whole histories -------------------------------------------------------

  /** What happens to a daemon: its calls, the connections of its stream threads, and the
      remote processes going on writing. */
  datatype Event =
    | Starts(host: Text, reply: StartReply)
    | Streams(key: Key, a: Replica.Attempt)
    | Cleans(host: Text)
    | Writes(key: Key, t: Replica.Tick)

  /** Each stream has a remote file of its own ... */
  ghost predicate Distinct(remotes: map<Key, Replica.Remote>) {
    && (forall k :: k in remotes ==> k.name != Status)
    && forall k, l :: k in remotes && l in remotes && k != l ==> remotes[k] != remotes[l]
  }

  /** ... with what has been written to it. */
  ghost predicate Hold(remotes: map<Key, Replica.Remote>, written: Outputs)
    reads remotes.Values
  {
    forall k :: k in remotes ==> remotes[k].Valid() && remotes[k].content == Of(written, k)
  }

  /** What an event leaves behind at the daemon. */
  ghost predicate Shows(state: State, event: Event)
    reads state
  {
    match event
    case Cleans(host) => forall key: Key :: key.host == host ==> Path(state.base, key) !in state.files
    case Starts(host, Started(id)) => host in state.hosts && id in state.hosts[host]
    case _ => true
  }

  /** How much the writing events add to a stream. */
  function Told(events: seq<Event>, key: Key): nat {
    if events == [] then 0
    else
      var last := events[|events| - 1];
      Told(events[..|events| - 1], key) + if last.Writes? && last.key == key then |last.t.written| else 0
  }

  /** Of every stream at least so much has been written as the events say. */
  ghost predicate Reached(remotes: map<Key, Replica.Remote>, later: Outputs, written: Outputs, events: seq<Event>) {
    forall k :: k in remotes ==> |Of(later, k)| >= |Of(written, k)| + Told(events, k)
  }

  lemma ReachedFurther(remotes: map<Key, Replica.Remote>, next: Outputs, later: Outputs, written: Outputs,
                       events: seq<Event>, event: Event)
    requires Reached(remotes, later, written, events) && Reached(remotes, next, later, [event])
    requires Extends(later, written) && Extends(next, later)
    ensures Reached(remotes, next, written, events + [event]) && Extends(next, written)
  {
    assert (events + [event])[..|events|] == events;
    forall k | k in remotes
      ensures |Of(next, k)| >= |Of(written, k)| + Told(events + [event], k)
    {
      assert Told([], k) == 0;
    }
  }

  lemma ReachedByOne(remotes: map<Key, Replica.Remote>, later: Outputs, written: Outputs, event: Event)
    requires Extends(later, written)
    requires event.Writes? && event.key in remotes ==>
      |Of(later, event.key)| >= |Of(written, event.key)| + |event.t.written|
    ensures Reached(remotes, later, written, [event])
  {
    assert [event][..0] == [];
    forall k | k in remotes
      ensures |Of(later, k)| >= |Of(written, k)| + Told([event], k)
    {
      assert Told([], k) == 0;
    }
  }

  predicate Extends(later: Outputs, written: Outputs) {
    forall k :: k in written ==> k in later && written[k] <= later[k]
  }

  /** Through any history every cached stream stays a prefix of what its process has written. */
  method History(state: State, remotes: map<Key, Replica.Remote>, events: seq<Event>, ghost written: Outputs)
    returns (ghost later: Outputs)
    requires Distinct(remotes) && Hold(remotes, written) && state.Mirrors(written)
    modifies state`files, state`hosts, remotes.Values
    ensures Hold(remotes, later) && state.Mirrors(later) && Extends(later, written)
    ensures Reached(remotes, later, written, events)
    ensures events != [] ==> Shows(state, events[|events| - 1])
  {
    later := written;
    assert events[..0] == [];
    hide Reached, Shows, Hold, Distinct, Extends;
    for i := 0 to |events|
      invariant Hold(remotes, later) && state.Mirrors(later) && Extends(later, written)
      invariant Reached(remotes, later, written, events[..i])
      invariant i > 0 ==> Shows(state, events[i - 1])
    {
      ghost var before := later;
      later := Happens(state, remotes, events[i], before);
      ReachedFurther(remotes, later, before, written, events[..i], events[i]);
      assert events[..i] + [events[i]] == events[..i + 1];
    }
    assert events[..|events|] == events;
  }

  method Happens(state: State, remotes: map<Key, Replica.Remote>, event: Event, ghost written: Outputs)
    returns (ghost later: Outputs)
    requires Distinct(remotes) && Hold(remotes, written) && state.Mirrors(written)
    modifies state`files, state`hosts, remotes.Values
    ensures Hold(remotes, later) && state.Mirrors(later) && Extends(later, written)
    ensures Reached(remotes, later, written, [event]) && Shows(state, event)
  {
    later := written;
    assert Extends(later, written);
    hide Hold, Distinct, Extends, Reached, Told, Path;
    match event {
      case Starts(host, reply) => state.HandleStart(host, reply, written);
      case Cleans(host) => state.CleanLocal(host, written);
      case Streams(key, a) =>
        if key in remotes {
          later := StreamHappens(state, remotes, key, a, written);
        }
      case Writes(key, t) =>
        if key in remotes {
          later := WriteHappens(state, remotes, key, t, written);
        }
    }
    ReachedByOne(remotes, later, written, event);
  }

  method StreamHappens(state: State, remotes: map<Key, Replica.Remote>, key: Key, a: Replica.Attempt,
                       ghost written: Outputs)
    returns (ghost later: Outputs)
    requires Distinct(remotes) && Hold(remotes, written) && state.Mirrors(written) && key in remotes
    modifies state`files, remotes[key]
    ensures Hold(remotes, later) && state.Mirrors(later) && Extends(later, written)
  {
    hide Path, CacheFile;
    var ok, end := state.Stream(key.host, key.id, key.name, remotes[key], a, written);
    later := written[key := remotes[key].content];
  }

  method WriteHappens(state: State, remotes: map<Key, Replica.Remote>, key: Key, t: Replica.Tick,
                      ghost written: Outputs)
    returns (ghost later: Outputs)
    requires Distinct(remotes) && Hold(remotes, written) && state.Mirrors(written) && key in remotes
    modifies remotes[key]
    ensures Hold(remotes, later) && state.Mirrors(later) && Extends(later, written)
    ensures later == written[key := Of(written, key) + t.written]
  {
    hide Path, CacheFile;
    remotes[key].Pass(t);
    later := written[key := remotes[key].content];
    state.MirrorsStay(written, key, remotes[key].content);
  }

  /** The bounded read of a cached file; a seek that fails, or a read that does, yields no bytes. */
  method ReadCached(file: seq<byte>, offset: nat, limit: nat, take: Option<nat>, utf8: seq<byte> -> bool)
    returns (r: Reply)
    requires |file| <= MAX_SEEK
    ensures r.Output? && r.size == |file| && Answers(r, file, offset, limit)
    ensures Verbatim(r.data, r.encoding, r.Bytes(), utf8)
    ensures take.Some? ==> r.Bytes() == Page(file, offset, limit, take.value)
  {
    var position := if offset > 0 && offset <= MAX_SEEK then offset else 0;
    var toRead := Min(limit, SaturatingSub(|file|, offset));
    var got := FileRead(file, position, toRead, take);
    var data := got.GetOr([]);
    SliceGrows(file, file, offset, limit);
    assert offset > MAX_SEEK ==> toRead == 0 && Slice(file, position, toRead) == [];
    var (text, encoding) := EncodeBytes(data, utf8);
    FieldRoundTrip(data, utf8);
    return Output(text, encoding, offset, |file|);
  }
}
