/** What `run` does when its launcher is let through: it feeds the whole body, in whatever
    pieces the FIFO takes, closes stdin, and returns the state it finds. */
module LifecycleRun {
  import opened Common
  import opened Kernel
  import opened ProcessState
  import opened Lifecycle
  import opened LifecycleInvariant
  import opened LifecycleRuns
  import opened LifecycleTheorems
  import opened LifecycleRace

  /** The launcher moves with these choices, one after the other, and nobody else does. */
  function LetThrough(s: Sys, choices: seq<LauncherChoice>): Option<Sys>
    decreases |choices|
  {
    if choices == [] then Some(s)
    else
      match LauncherStep(s, choices[0])
      case None => None
      case Some(t) => LetThrough(t, choices[1..])
  }

  lemma {:induction false} StillReachable(w: World, choices: seq<LauncherChoice>, t: Sys)
    requires Reachable(w) && LetThrough(w.sys, choices) == Some(t)
    ensures Reachable(World(t, w.clients))
    decreases |choices|
  {
    if choices == [] {
      assert w == World(t, w.clients);
    } else {
      hide Reachable, LauncherStep;
      var next := Moved(w, SystemMove(LauncherMoves(choices[0])));
      StillReachable(next, choices[1..], t);
    }
  }

  lemma {:induction false} ThroughOn(s: Sys, first: seq<LauncherChoice>, then_: seq<LauncherChoice>)
    requires LetThrough(s, first).Some?
    ensures LetThrough(s, first + then_) == LetThrough(LetThrough(s, first).value, then_)
    decreases |first|
  {
    if first == [] {
      assert [] + then_ == then_;
    } else {
      assert (first + then_)[1..] == first[1..] + then_;
      hide LauncherStep;
      ThroughOn(LauncherStep(s, first[0]).value, first[1..], then_);
    }
  }

  lemma ThroughOne(s: Sys, c: LauncherChoice)
    ensures LetThrough(s, [c]) == LauncherStep(s, c)
  {
    hide LauncherStep;
    assert [c][1..] == [];
  }

  lemma ThroughTwo(s: Sys, c: LauncherChoice, d: LauncherChoice)
    requires LauncherStep(s, c).Some?
    ensures LetThrough(s, [c, d]) == LauncherStep(LauncherStep(s, c).value, d)
  {
    hide LauncherStep;
    assert [c, d][1..] == [d];
    ThroughOne(LauncherStep(s, c).value, d);
  }

  lemma ThroughThree(s: Sys, c: LauncherChoice, d: LauncherChoice, e: LauncherChoice)
    requires LauncherStep(s, c).Some? && LauncherStep(LauncherStep(s, c).value, d).Some?
    ensures LetThrough(s, [c, d, e]) == LauncherStep(LauncherStep(LauncherStep(s, c).value, d).value, e)
  {
    hide LauncherStep;
    assert [c, d, e][1..] == [d, e];
    ThroughTwo(LauncherStep(s, c).value, d, e);
  }

  // ---- Feeding ---------------------------------------------------------------

  function Sum(pieces: seq<nat>): nat {
    if pieces == [] then 0 else pieces[0] + Sum(pieces[1..])
  }

  /** One write for each piece. */
  function Writes(pieces: seq<nat>): seq<LauncherChoice> {
    if pieces == [] then [] else [Advance(pieces[0])] + Writes(pieces[1..])
  }

  /** What feeding changes: the FIFO's contents and the count. */
  predicate FedBy(s: Sys, t: Sys, bytes: seq<byte>) {
    && t == s.(fifo := t.fifo, log := s.log.(fed := t.log.fed))
    && t.fifo == s.fifo.(buf := s.fifo.buf + bytes, accepted := s.fifo.accepted + bytes)
    && t.log.fed == s.log.fed + |bytes|
  }

  lemma FedFurther(s: Sys, t: Sys, u: Sys, a: seq<byte>, b: seq<byte>)
    requires FedBy(s, t, a) && FedBy(t, u, b)
    ensures FedBy(s, u, a + b)
  {
    Assoc(s.fifo.buf, a, b);
    Assoc(s.fifo.accepted, a, b);
  }

  lemma {:induction false} WritesAll(s: Sys, pieces: seq<nat>)
    requires s.launcher.Feed? && s.fifo.HasReader() && s.log.fed + Sum(pieces) == |s.job.body|
    requires forall i :: 0 <= i < |pieces| ==> pieces[i] >= 1
    ensures var t := LetThrough(s, Writes(pieces)); t.Some? && FedBy(s, t.value, s.job.body[s.log.fed..])
    decreases |pieces|
  {
    var body := s.job.body;
    if pieces == [] {
      assert body[s.log.fed..] == [] && s.fifo.buf + [] == s.fifo.buf && s.fifo.accepted + [] == s.fifo.accepted;
    } else {
      var n := pieces[0];
      var piece, rest := body[s.log.fed..s.log.fed + n], body[s.log.fed + n..];
      WritesOne(s, n);
      var t := LauncherStep(s, Advance(n)).value;
      hide LauncherStep, FedBy;
      WritesAll(t, pieces[1..]);
      var u := LetThrough(t, Writes(pieces[1..])).value;
      assert Writes(pieces)[1..] == Writes(pieces[1..]);
      assert piece + rest == body[s.log.fed..];
      FedFurther(s, t, u, piece, rest);
    }
  }

  lemma WritesOne(s: Sys, n: nat)
    requires s.launcher.Feed? && s.fifo.HasReader() && 1 <= n <= |s.job.body| - s.log.fed
    ensures var t := LauncherStep(s, Advance(n));
      && t.Some? && FedBy(s, t.value, s.job.body[s.log.fed..s.log.fed + n])
      && t.value.launcher.Feed? && t.value.fifo.HasReader() && t.value.job == s.job
      && t.value.log.fed == s.log.fed + n
  {
  }

  lemma OpensFeed(s: Sys)
    requires s.launcher.Started? && s.job.run && s.job.body != [] && s.fifo.HasReader()
    ensures LetThrough(s, [Proceed, Proceed]) == Some(s.(launcher := Feed, fifo := s.fifo.(feeding := true)))
  {
    ThroughTwo(s, Proceed, Proceed);
    hide LetThrough;
  }

  lemma EndsFeed(s: Sys)
    requires s.launcher.Feed? && s.log.fed == |s.job.body| && s.fifo.attached
    ensures LetThrough(s, [Proceed, Proceed]) == Some(s.(launcher := Resume(s), fifo := s.fifo.(feeding := false)))
  {
    ThroughTwo(s, Proceed, Proceed);
    hide LetThrough;
  }

  function FeedingChoices(pieces: seq<nat>): seq<LauncherChoice> {
    [Proceed, Proceed] + (Writes(pieces) + [Proceed, Proceed])
  }

  /** With a reader there, `run` feeds the whole body, whatever pieces it goes in, before it
      does anything else; and unless somebody else has written too, the command has read or can
      read exactly the body. */
  lemma RunFeedsEverything(w: World, pieces: seq<nat>)
    requires Reachable(w) && w.sys.launcher.Started? && w.sys.log.startedWithPid
    requires w.sys.job.run && w.sys.job.body != [] && w.sys.fifo.attached
    requires Sum(pieces) == |w.sys.job.body| && forall i :: 0 <= i < |pieces| ==> pieces[i] >= 1
    ensures var s, r := w.sys, LetThrough(w.sys, FeedingChoices(pieces));
      && r.Some? && r.value.launcher == Resume(s) && !r.value.fifo.feeding && r.value.log.fed == |s.job.body|
      && r.value.fifo.accepted == s.fifo.accepted + s.job.body
      && r.value == s.(launcher := r.value.launcher, fifo := r.value.fifo, log := s.log.(fed := r.value.log.fed))
      && r.value.fifo.rw == s.fifo.rw && r.value.fifo.others == s.fifo.others && r.value.fifo.attached
      && (!s.log.foreign ==> r.value.fifo.consumed + r.value.fifo.buf == s.job.body)
  {
    var s := w.sys;
    NothingFed(w);
    OpensFeed(s);
    var opened_ := s.(launcher := Feed, fifo := s.fifo.(feeding := true));
    WritesAll(opened_, pieces);
    var fed := LetThrough(opened_, Writes(pieces)).value;
    EndsFeed(fed);
    var t := fed.(launcher := Resume(fed), fifo := fed.fifo.(feeding := false));
    ThroughOn(opened_, Writes(pieces), [Proceed, Proceed]);
    ThroughOn(s, [Proceed, Proceed], Writes(pieces) + [Proceed, Proceed]);
    assert s.job.body[0..] == s.job.body;
    hide LetThrough, Writes, Reachable;
    StillReachable(w, FeedingChoices(pieces), t);
    if !s.log.foreign {
      RunFeedsTheBody(World(t, w.clients));
      assert s.job.body[..|s.job.body|] == s.job.body;
    }
  }

  lemma NothingFed(w: World)
    requires Reachable(w) && w.sys.launcher.Started?
    ensures w.sys.log.fed == 0 && !w.sys.fifo.feeding
  {
    ReachableInv(w);
  }

  // ---- Closing ---------------------------------------------------------------

  /** Unless told to keep it open, `run` then closes stdin: with the status running the holder
      is dead after two steps, and nothing else has changed. */
  lemma RunClosesStdin(w: World)
    requires Reachable(w) && w.sys.launcher.CloseCheck? && w.sys.dir.Some? && w.sys.log.startedWithPid
    requires Status(w.sys) == Some(Running)
    ensures var s, r := w.sys, LetThrough(w.sys, [Proceed, Proceed]);
      && r.Some? && !r.value.holder.Live? && (r.value.launcher == Poll(ReadStatus) || r.value.launcher.CloseResolve?)
      && r.value.(launcher := s.launcher) == SignalHolder(s)
      && (s.fifo.attached ==> r.value.fifo == s.fifo.(rw := s.fifo.rw.(holder := false)))
      && (s.fifo.attached && s.fifo.others == 0 ==> !r.value.fifo.HasWriter())
  {
    StartedMeansReady(w);
    NobodyElseHolds(w);
    ThroughTwo(w.sys, Proceed, Proceed);
    hide LetThrough, Reachable;
  }

  lemma NobodyElseHolds(w: World)
    requires Reachable(w) && w.sys.log.startedWithPid && w.sys.launcher.CloseCheck?
    ensures var s := w.sys;
      && !s.fifo.rw.launcher && !s.fifo.rw.runner && !s.fifo.rw.command && !s.fifo.feeding
      && (s.fifo.rw.holder <==> s.holder.Live?) && !s.holder.Unborn?
  {
    ReachableInv(w);
  }

  /** A process that is already over is left alone. */
  lemma RunSparesTheEnded(s: Sys)
    requires s.launcher.CloseCheck? && Status(s).Some? && Status(s) != Some(Running)
    ensures LetThrough(s, [Proceed]) == Some(s.(launcher := Poll(ReadStatus)))
  {
    ThroughOne(s, Proceed);
    hide LetThrough;
  }

  /** From the body to the end of file: a `run` let through leaves its command with exactly the
      body on stdin and nobody left to write more. */
  lemma RunDelivers(w: World, pieces: seq<nat>)
    requires Reachable(w) && w.sys.launcher.Started? && w.sys.log.startedWithPid
    requires w.sys.job.run && w.sys.job.body != [] && !w.sys.job.keepOpen && w.sys.fifo.attached && !w.sys.log.foreign
    requires Sum(pieces) == |w.sys.job.body| && forall i :: 0 <= i < |pieces| ==> pieces[i] >= 1
    requires w.sys.dir.Some? && Status(w.sys) == Some(Running)
    ensures var r := LetThrough(w.sys, FeedingChoices(pieces) + [Proceed, Proceed]);
      && r.Some? && r.value.fifo.consumed + r.value.fifo.buf == w.sys.job.body && !r.value.fifo.HasWriter()
  {
    RunFeedsEverything(w, pieces);
    var t := LetThrough(w.sys, FeedingChoices(pieces)).value;
    StillReachable(w, FeedingChoices(pieces), t);
    NoForeignWriter(w);
    hide LetThrough, Reachable, FeedingChoices;
    RunClosesStdin(World(t, w.clients));
    ThroughOn(w.sys, FeedingChoices(pieces), [Proceed, Proceed]);
  }

  lemma NoForeignWriter(w: World)
    requires Reachable(w) && !w.sys.log.foreign
    ensures w.sys.fifo.others == 0
  {
    ReachableInv(w);
  }

  // ---- Answering -------------------------------------------------------------

  /** A terminal snapshot is the answer after at most three steps, and nothing is written. */
  lemma PollAnswers(w: World, st: State)
    requires Reachable(w) && w.sys.launcher == Poll(ReadStatus) && Snapshot(w.sys).0 == Some(st) && st != Running
    ensures LetThrough(w.sys, [Proceed, Proceed, Proceed]) == Some(w.sys.(launcher := Finished(st)))
  {
    NoHealing(w);
    var s := w.sys;
    var t := s.(launcher := Poll(ReadMarker(Status(s).value)));
    var u := s.(launcher := Poll(Resolved(Some(st))));
    assert LauncherStep(s, Proceed) == Some(t);
    assert LauncherStep(t, Proceed) == Some(u);
    assert LauncherStep(u, Proceed) == Some(s.(launcher := Finished(st)));
    ThroughThree(s, Proceed, Proceed, Proceed);
    hide Reachable, LauncherStep, LetThrough;
  }

  /** With the launcher alive no snapshot heals. */
  lemma NoHealing(w: World)
    requires Reachable(w) && !w.sys.launcher.Gone?
    ensures !Snapshot(w.sys).1
  {
    ReachableInv(w);
    hide Stdin, OwnResolver;
  }

  /** Whatever the clock says, a terminal state is returned ... */
  lemma AnswerBeatsTimeout(s: Sys, st: State, c: LauncherChoice)
    requires s.launcher == Poll(Resolved(Some(st))) && st != Running
    ensures LauncherStep(s, c) == Some(s.(launcher := Finished(st)))
  {
  }

  lemma TimesOutInThePollLoop(s: Sys, c: LauncherChoice, t: Sys)
    requires LauncherStep(s, c) == Some(t) && t.launcher.TimedOut?
    ensures s.launcher.Poll? && PollStep(s, c) == Some(t)
  {
    hide ResolverStep;
  }

  /** ... and time runs out only on one that was found running, or not at all. */
  lemma TimeoutMeansUndecided(s: Sys, c: LauncherChoice, t: Sys)
    requires LauncherStep(s, c) == Some(t) && t.launcher.TimedOut?
    ensures c.GiveUp? && (s.launcher == Poll(Resolved(None)) || s.launcher == Poll(Resolved(Some(Running))))
  {
    TimesOutInThePollLoop(s, c, t);
    hide LauncherStep, ResolverStep;
    assert s.launcher.r.Resolved?;
    var result := s.launcher.r.result;
    assert result == None || result == Some(Running);
  }

  function Proceeds(n: nat): seq<LauncherChoice> {
    if n == 0 then [] else [Proceed] + Proceeds(n - 1)
  }

  /** Steps a resolver has left at most. */
  function ResolverLeft(r: Resolver): nat {
    match r
    case ReadStatus => 7 case ReadMarker(_) => 1 case ReadPid => 5 case ReadRunner(_) => 4
    case CheckCommand(_, _) => 3 case CheckRunner(_) => 2 case Heal => 1 case Resolved(_) => 0
  }

  /** n steps of the launcher alone bring the answer. */
  predicate Answers(s: Sys, n: nat) {
    var t := LetThrough(s, Proceeds(n));
    t.Some? && t.value.launcher.Finished? && t.value == s.(launcher := t.value.launcher)
  }

  lemma AnswersBefore(s: Sys, t: Sys, n: nat)
    requires LauncherStep(s, Proceed) == Some(t) && t == s.(launcher := t.launcher) && Answers(t, n)
    ensures Answers(s, n + 1)
  {
    hide LauncherStep;
    assert Proceeds(n + 1)[1..] == Proceeds(n);
  }

  predicate Ended(s: Sys) {
    s.launcher.Poll? && s.dir.Some? && Status(s).Some? && Status(s) != Some(Running)
  }

  /** Wherever its poll loop is, `run` answers within twelve steps of its own once the status is
      terminal; by RunReturnsTheTruth the answer is how the command ended, if nobody signalled. */
  lemma {:induction false} RunAnswers(w: World)
    requires Reachable(w) && Ended(w.sys)
    ensures exists n: nat :: n <= ResolverLeft(w.sys.launcher.r) + 5 && Answers(w.sys, n)
    decreases ResolverLeft(w.sys.launcher.r)
  {
    var s := w.sys;
    var r := s.launcher.r;
    if r.ReadStatus? {
      AnswersFromTheTop(w);
      assert Answers(s, 3);
      return;
    }
    var next := Moved(w, L);
    PollStays(w, next.sys);
    hide LauncherStep, Reachable, LetThrough;
    if next.sys.launcher.Finished? {
      AnswersNow(next.sys);
      AnswersBefore(s, next.sys, 0);
    } else if next.sys.launcher.r.ReadStatus? {
      AnswersFromTheTop(next);
      AnswersBefore(s, next.sys, 3);
    } else {
      RunAnswers(next);
      var n: nat :| n <= ResolverLeft(next.sys.launcher.r) + 5 && Answers(next.sys, n);
      AnswersBefore(s, next.sys, n);
    }
  }

  lemma AnswersNow(s: Sys)
    requires s.launcher.Finished?
    ensures Answers(s, 0)
  {
  }

  lemma AnswersFromTheTop(w: World)
    requires Reachable(w) && Ended(w.sys) && w.sys.launcher.r.ReadStatus?
    ensures Answers(w.sys, 3)
  {
    var st := Snapshot(w.sys).0.value;
    PollAnswers(w, st);
    hide Reachable, LauncherStep;
    assert Proceeds(1) == [Proceed] && Proceeds(2) == [Proceed, Proceed] && Proceeds(3) == [Proceed, Proceed, Proceed];
  }

  /** A step of the poll loop on an ended process changes nothing but where it is. */
  lemma PollStays(w: World, t: Sys)
    requires Reachable(w) && Ended(w.sys) && !w.sys.launcher.r.ReadStatus? && LauncherStep(w.sys, Proceed) == Some(t)
    ensures t == w.sys.(launcher := t.launcher) && (t.launcher.Finished? || t.launcher.Poll?)
    ensures t.launcher.Poll? && !t.launcher.r.ReadStatus? ==>
      ResolverLeft(t.launcher.r) < ResolverLeft(w.sys.launcher.r)
  {
    NeverHealing(w);
    hide Reachable;
  }

  lemma NeverHealing(w: World)
    requires Reachable(w) && Ended(w.sys)
    ensures !w.sys.launcher.r.Heal?
  {
    ReachableInv(w);
    hide Births, Pipes, Stdin, Directory, Launching;
  }
}
