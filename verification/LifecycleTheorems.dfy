/** What the lifecycle protocol promises, in every interleaving. */
module LifecycleTheorems {
  import opened Common
  import opened Kernel
  import opened ProcessState
  import opened Lifecycle
  import opened LifecycleInvariant
  import opened LifecycleKeeps
  import opened LifecycleRuns

  // ---- start -----------------------------------------------------------------

  /** Once `start` has returned `Started` after reading a pid, all three pids are recorded,
      the holder is the only process with a read-write descriptor left, and the command has
      opened its stdin or is dead. */
  lemma StartedMeansReady(w: World)
    requires Reachable(w) && (w.sys.launcher == Return(true) || w.sys.log.startedWithPid)
    ensures var s := w.sys;
      && (s.dir.Some? ==> s.dir.value.pid == Some(Command) && s.dir.value.runnerPid == Some(Runner)
                          && s.dir.value.holderPid == Some(Holder))
      && !s.fifo.rw.runner && !s.fifo.rw.command && !s.fifo.rw.launcher && (s.fifo.rw.holder <==> s.holder.Live?)
      && (s.fifo.everOpen || s.command.Dead())
  {
    ReachableInv(w);
  }

  /** Steps left to a process on its way through the handshake. */
  function RunnerLeft(s: Sys): nat {
    if s.runner.Dead() then 0
    else match s.runnerPc
      case FailStatus => 5 case FailReport => 4 case FailStopHolder => 3 case FailExit => 2
      case _ => 20 - s.runnerPc.Progress()
  }

  function HolderLeft(s: Sys): nat {
    if s.holder.Dead() then 0
    else match s.holderPc case HolderCloseSync => 2 case HolderCloseReady => 1 case Pause => 0
  }

  function CommandLeft(s: Sys): nat {
    if s.command.Dead() then 0
    else match s.commandPc
      case CommandCloseSync => 11 case CommandCloseFifo => 10 case OpenStdin => 9 case SignalReady => 8
      case CommandCloseReady => 7 case Enter => 6 case Exec => 5 case RecordErrno => 4
      case CommandFailStatus => 3 case Exit127 => 2 case Program => 1
  }

  function LauncherLeft(s: Sys): nat {
    match s.launcher
    case MakeDir => 9 case WriteRunning => 8 case Fork => 7 case CloseSyncWrite => 6 case CloseReadyWrite => 5
    case ReadSync => 4 case RecordPid => 3 case ReadReady => 2 case Return(_) => 1
    case _ => 0
  }

  function Work(s: Sys): nat {
    RunnerLeft(s) + HolderLeft(s) + CommandLeft(s) + LauncherLeft(s)
  }

  predicate Handshake(s: Sys, a: Action) {
    || a.RunnerMoves? || a.HolderMoves? || a.LauncherMoves?
    || (a.CommandMoves? && !s.commandPc.Program?)
  }

  /** While `start` has not returned, some process can take a step of the handshake ... */
  lemma StartNeverStuck(w: World)
    requires Reachable(w) && BeforeStarted(w.sys.launcher)
    ensures exists a :: Handshake(w.sys, a) && Step(w.sys, a).Some?
  {
    ReachableInv(w);
    var s := w.sys;
    if LauncherStep(s, Proceed).Some? {
      assert Step(s, LauncherMoves(Proceed)).Some?;
    } else if s.runner.Live? && Progress(s) <= 9 {
      RunnerRuns(s);
      assert Step(s, RunnerMoves(false)).Some?;
    } else if s.syncW.holder || s.readyW.holder {
      assert Step(s, HolderMoves).Some?;
    } else {
      assert s.command.Live? && !s.commandPc.Program?;
      CommandRuns(s);
      assert Step(s, CommandMoves(Go)).Some?;
    }
  }

  lemma RunnerRuns(s: Sys)
    requires s.runner.Live? && !s.runnerPc.Reap?
    ensures RunnerStep(s, false).Some?
  {
  }

  lemma CommandRuns(s: Sys)
    requires s.command.Live? && !s.commandPc.Program?
    ensures CommandStep(s, Go).Some?
  {
  }

  /** ... and every such step leaves fewer of them, so `start` returns on every schedule. */
  lemma HandshakeShrinks(w: World, a: Action, t: Sys)
    requires Reachable(w) && BeforeStarted(w.sys.launcher) && Handshake(w.sys, a) && Step(w.sys, a) == Some(t)
    ensures Work(t) < Work(w.sys)
  {
    ReachableInv(w);
    var s := w.sys;
    BirthsOf(s);
    hide Inv, RunnerStep, HolderStep, CommandStep, StartStep, RunnerLeft, HolderLeft, CommandLeft, LauncherLeft;
    match a
    case RunnerMoves(fails) =>
      RunnerAdvances(s, fails, t);
      RunnerShrinks(s, fails, t);
    case CommandMoves(c) => CommandShrinks(s, c, t);
    case LauncherMoves(l) => StartShrinks(s, l, t);
    case HolderMoves => HolderShrinks(s, t);
  }

  lemma BirthsOf(s: Sys)
    ensures Inv(s) ==> Births(s)
  {
  }

  lemma StartShrinks(s: Sys, c: LauncherChoice, t: Sys)
    requires BeforeStarted(s.launcher) && StartStep(s, c) == Some(t) && Births(s)
    ensures LauncherLeft(t) < LauncherLeft(s) && RunnerLeft(t) == RunnerLeft(s)
    ensures HolderLeft(t) == HolderLeft(s) && CommandLeft(t) == CommandLeft(s)
  {
  }

  lemma RunnerAdvances(s: Sys, fails: bool, t: Sys)
    requires RunnerStep(s, fails) == Some(t)
    ensures RunnerLeft(t) < RunnerLeft(s) && LauncherLeft(t) == LauncherLeft(s)
  {
  }

  lemma RunnerShrinks(s: Sys, fails: bool, t: Sys)
    requires RunnerStep(s, fails) == Some(t) && Births(s)
    ensures HolderLeft(t) <= HolderLeft(s) && CommandLeft(t) <= CommandLeft(s)
  {
  }

  lemma HolderShrinks(s: Sys, t: Sys)
    requires HolderStep(s) == Some(t)
    ensures HolderLeft(t) < HolderLeft(s) && RunnerLeft(t) == RunnerLeft(s) && CommandLeft(t) == CommandLeft(s)
    ensures LauncherLeft(t) == LauncherLeft(s)
  {
  }

  lemma CommandShrinks(s: Sys, c: CommandChoice, t: Sys)
    requires CommandStep(s, c) == Some(t) && !s.commandPc.Program?
    ensures CommandLeft(t) < CommandLeft(s) && RunnerLeft(t) == RunnerLeft(s) && HolderLeft(t) == HolderLeft(s)
    ensures LauncherLeft(t) == LauncherLeft(s)
  {
  }

  // ---- stdin of run ----------------------------------------------------------

  /** Bytes accepted after `Started` are read in order or still buffered, as long as the
      command has not let go of its stdin. */
  lemma StdinKept(w: World)
    requires Reachable(w) && w.sys.log.startedWithPid && w.sys.fifo.attached
    ensures var f := w.sys.fifo;
      f.accepted == f.lost + f.consumed + f.buf && |f.lost| <= w.sys.log.startMark
  {
    ReachableInv(w);
  }

  /** With no other writer, what the command of a `run` has read and can still read is what
      was fed so far. */
  lemma RunFeedsTheBody(w: World)
    requires Reachable(w) && w.sys.log.startedWithPid && w.sys.fifo.attached && !w.sys.log.foreign
    ensures w.sys.log.fed <= |w.sys.job.body|
    ensures w.sys.fifo.consumed + w.sys.fifo.buf == w.sys.job.body[..w.sys.log.fed]
  {
    ReachableInv(w);
    assert w.sys.fifo.lost == [];
    assert [] + w.sys.fifo.consumed == w.sys.fifo.consumed;
  }

  /** A feed that returned Ok fed the whole body; the end of stdin then comes right after it. */
  lemma RunStdinExact(w: World)
    requires Reachable(w) && w.sys.log.startedWithPid && !w.sys.log.foreign
    ensures w.sys.launcher == FeedClose(true) ==> w.sys.log.fed == |w.sys.job.body|
    ensures w.sys.fifo.AtEof() && w.sys.log.fed == |w.sys.job.body| ==> w.sys.fifo.consumed == w.sys.job.body
  {
    ReachableInv(w);
    var f := w.sys.fifo;
    if f.attached {
      RunFeedsTheBody(w);
      assert f.consumed + [] == f.consumed;
    }
  }

  /** Nothing but the holder and writers at work keeps the command from its end of file. */
  lemma EofWithoutHolder(w: World)
    requires Reachable(w) && w.sys.log.startedWithPid && w.sys.fifo.attached
    ensures w.sys.fifo.AtEof() <==>
              w.sys.fifo.buf == [] && !w.sys.holder.Live? && !w.sys.fifo.feeding && w.sys.fifo.others == 0
  {
    ReachableInv(w);
  }

  // ---- Resolving the state ---------------------------------------------------

  /** While the rxd that launched a command is there, no resolver of any client, step by step
      or not, writes exited(unknown) for it. */
  lemma LauncherPreventsUnknown(w: World)
    requires Reachable(w) && !w.sys.launcher.Gone?
    ensures !w.sys.log.stamped
    ensures w.sys.dir.Some? && !w.sys.log.runnerSignalled ==> Status(w.sys) != Some(ExitedUnknown)
  {
    ReachableInv(w);
  }

  /** What really became of the command. */
  predicate Truth(s: Sys, st: State) {
    match st
    case ExecFailed(e) => s.log.execErrno == Some(e)
    case _ => s.outcome == Some(st)
              || (st == Exited(127) && (s.runnerPc.Failing() || (s.commandPc.Exit127? && s.command.Live?)))
  }

  /** `run` whose processes nobody signalled returns how the command ended, or why it did not
      start. Only where another client has removed the directory under it can it return
      exited(unknown), or exited(127) for a command that did not start. */
  lemma RunReturnsTheTruth(w: World)
    requires Reachable(w) && w.sys.launcher.Finished?
    requires !w.sys.log.runnerSignalled && !w.sys.log.commandSignalled
    ensures w.sys.launcher.result != ExitedUnknown ==> Truth(w.sys, w.sys.launcher.result)
    ensures w.sys.launcher.result == ExitedUnknown ==> w.sys.dir.None?
    ensures w.sys.commandPc.Exit127? && w.sys.log.execErrno.Some? ==>
      || w.sys.launcher.result == ExecFailed(w.sys.log.execErrno.value)
      || (w.sys.dir.None? && w.sys.launcher.result in {Exited(127), ExitedUnknown})
  {
    ReachableInv(w);
  }

  /** Of an unsignalled process that says running and has a pid recorded, the runner answers. */
  lemma RunningAnswers(s: Sys)
    requires Births(s) && Pipes(s) && Directory(s) && !s.log.runnerSignalled
    ensures (&& s.dir.Some? && s.dir.value.status == Some(Running)
             && (s.dir.value.pid.Some? || s.dir.value.runnerPid.Some?)) ==>
      s.dir.value.runnerPid == Some(Runner) && LifeOf(s, Runner).Answers()
  {
  }

  lemma TerminalRecorded(s: Sys)
    requires Births(s) && Directory(s) && !s.log.runnerSignalled
    ensures s.dir.Some? && s.dir.value.status.Some? && s.dir.value.status != Some(Running) ==>
      && Recorded(s, s.dir.value.status.value) && !s.dir.value.status.value.ExecFailed?
      && (s.dir.value.status == Some(ExitedUnknown) ==> s.log.stamped)
    ensures s.dir.Some? && s.dir.value.execError.Some? ==> s.dir.value.execError == s.log.execErrno
  {
  }

  /** While the runner was never signalled a snapshot heals nothing. It shows running, what
      the protocol wrote for a reason, or the true exec failure; it shows exited(unknown) only
      where a split resolver stamped it. */
  lemma SnapshotNeverInvents(w: World)
    requires Reachable(w) && !w.sys.log.runnerSignalled
    ensures var (st, heals) := Snapshot(w.sys);
      && !heals
      && (st == Some(ExitedUnknown) ==> w.sys.log.stamped)
      && (st.Some? && st != Some(Running) ==>
            if st.value.ExecFailed? then w.sys.log.execErrno == Some(st.value.errno) else Recorded(w.sys, st.value))
  {
    ReachableInv(w);
    RunningAnswers(w.sys);
    TerminalRecorded(w.sys);
    hide WorldInv, Births, Recorded, Core;
  }

  /** A resolver left alone finds what the snapshot shows, in at most seven steps. */
  lemma ResolverAlone(s: Sys)
    ensures var (t, r) := Alone(s, ReadStatus, 7);
      r == Resolved(Snapshot(s).0) && Status(t) == Status(Observe(s))
  {
  }

  function Alone(s: Sys, r: Resolver, n: nat): (Sys, Resolver)
    decreases n
  {
    if n == 0 then (s, r) else var (t, r') := ResolverStep(s, r); Alone(t, r', n - 1)
  }

  /** The race the code leaves open: a resolver that gets to its write although the runner was
      never signalled always writes over a status the runner recorded. It takes a launcher
      that is gone, so that the runner could be reaped between the resolver's reads. */
  lemma HealIsLate(w: World, i: nat)
    requires Reachable(w) && i < |w.clients| && w.clients[i] == Resolving(Heal)
    requires w.sys.dir.Some? && !w.sys.log.runnerSignalled
    ensures w.sys.launcher.Gone? && w.sys.runner.Reaped?
    ensures Status(w.sys).Some? && Status(w.sys) != Some(Running)
    ensures !w.sys.log.stamped && w.sys.command.Reaped? ==> Status(w.sys) == w.sys.outcome
    ensures Status(ResolverStep(w.sys, Heal).0) == Some(ExitedUnknown)
  {
    ReachableInv(w);
    assert ClientOk(w.sys, w.clients[i]);
  }

  /** Where an exec failure has run its course, a resolver that has read the status answers
      with its errno if and only if the directory is still there. */
  lemma MarkerDecides(w: World, i: nat, st: State)
    requires Reachable(w) && i < |w.clients| && w.clients[i] == Resolving(ReadMarker(st))
    requires w.sys.commandPc.Exit127? && w.sys.log.execErrno.Some?
    ensures ResolverStep(w.sys, ReadMarker(st)).1 == Resolved(Some(ExecFailed(w.sys.log.execErrno.value)))
            <==> w.sys.dir.Some?
  {
    ReachableInv(w);
    assert ClientOk(w.sys, w.clients[i]);
  }

  /** While the directory is there, every resolver reports such a failure as such, whatever it
      raced with, unless a stamp or a signal to the runner came before; and at any time
      nothing else is reported as one. */
  lemma ExecFailureIsNamed(w: World, i: nat, st: State)
    requires Reachable(w) && i < |w.clients| && w.clients[i] == Resolving(Resolved(Some(st)))
    ensures st.ExecFailed? ==> w.sys.log.execErrno == Some(st.errno)
    ensures w.sys.dir.Some? && w.sys.commandPc.Exit127? && w.sys.log.execErrno.Some? && st != Running ==>
      || st == ExecFailed(w.sys.log.execErrno.value)
      || (st == ExitedUnknown && (w.sys.log.stamped || w.sys.log.runnerSignalled))
  {
    ReachableInv(w);
    assert ClientOk(w.sys, w.clients[i]);
  }

  /** With or without the directory, these are the answers for an exec failure whose command
      nobody signalled; a plain exited(127) is one only where a `clean` came between. */
  lemma ExecFailureAnswers(w: World, i: nat, st: State)
    requires Reachable(w) && i < |w.clients| && w.clients[i] == Resolving(Resolved(Some(st))) && st != Running
    requires w.sys.commandPc.Exit127? && w.sys.log.execErrno.Some? && !w.sys.log.commandSignalled
    ensures || st == ExecFailed(w.sys.log.execErrno.value)
            || st == ExitedUnknown
            || (st == ExitedKilled && w.sys.log.runnerSignalled)
            || (st == Exited(127) && w.sys.dir.None?)
  {
    ReachableInv(w);
    assert ClientOk(w.sys, w.clients[i]);
  }

  // ---- kill and clean --------------------------------------------------------

  /** No step of any `kill` replaces what the runner recorded. */
  lemma KillKeepsTheTruth(w: World, i: nat, survives: bool, w': World)
    requires Reachable(w) && i < |w.clients| && w.clients[i].Killing?
    requires WorldStep(w, ClientMove(i, survives)) == Some(w')
    requires Status(w.sys).Some? && (Status(w.sys).value.Exited? || Status(w.sys).value.Signaled?)
    ensures Status(w'.sys) == Status(w.sys)
  {
    ReachableInv(w);
    assert ClientOk(w.sys, w.clients[i]);
    StatusUnlessStamped(w.sys, w.clients[i].k, survives);
    hide Inv, KillerStep;
  }

  lemma StatusUnlessStamped(s: Sys, k: Killer, survives: bool)
    ensures !k.KillStamp? ==> Status(KillerStep(s, k, survives).0) == Status(s)
  {
  }

  /** A `kill` that answered `Killed` left a terminal status and a dead command, even one that
      ignores SIGTERM. Where a `clean` has removed the directory meanwhile, the command is over
      unless the runner was signalled and a split resolver stamped. */
  lemma KilledMeansDead(w: World, i: nat)
    requires Reachable(w) && i < |w.clients| && w.clients[i] == Killing(Answered(true))
    ensures w.sys.dir.Some? ==> w.sys.command.Dead() && Status(w.sys).Some? && Status(w.sys) != Some(Running)
    ensures w.sys.dir.None? ==> CommandOver(w.sys) || Misled(w.sys)
  {
    ReachableInv(w);
    assert ClientOk(w.sys, w.clients[i]);
  }

  /** Without that return, `kill` can find no pid recorded: it then stamps exited(killed),
      answers `Killed`, and has signalled nobody. */
  lemma NewbornOnlyStamped(s: Sys, survives: bool)
    requires s.dir.Some? && Status(s) == Some(Running) && s.dir.value.pid.None? && s.dir.value.runnerPid.None?
    ensures var (t, k) := KillerAlone(s, KillReadStatus, survives, 6);
      t == SetStatus(s, ExitedKilled) && k == Answered(true)
  {
  }

  function KillerAlone(s: Sys, k: Killer, survives: bool, n: nat): (Sys, Killer)
    decreases n
  {
    if n == 0 then (s, k) else var (t, k') := KillerStep(s, k, survives); KillerAlone(t, k', survives, n - 1)
  }

  /** What `kill` has signalled by the time it writes. */
  function Signalled(s: Sys, runner: Option<Proc>, pid: Option<Proc>, survives: bool): Sys {
    var (t, sent) := SendTerm(s, runner, pid, survives);
    if !sent || pid.None? || !LifeOf(t, pid.value).Answers() then t
    else if runner.Some? then KillGroup(t) else SignalCommand(t, SIGKILL)
  }

  lemma SignalsKeepFiles(s: Sys, runner: Option<Proc>, pid: Option<Proc>, survives: bool)
    ensures SendTerm(s, runner, pid, survives).0.dir == s.dir
    ensures KillGroup(s).dir == s.dir && SignalCommand(s, SIGKILL).dir == s.dir
  {
  }

  lemma KillerAloneResult(s: Sys, survives: bool)
    requires s.dir.Some? && Status(s) == Some(Running)
    ensures KillerAlone(s, KillReadStatus, survives, 8)
            == (SetStatus(Signalled(s, s.dir.value.runnerPid, s.dir.value.pid, survives), ExitedKilled), Answered(true))
  {
    var runner, pid := s.dir.value.runnerPid, s.dir.value.pid;
    var (t, sent) := SendTerm(s, runner, pid, survives);
    SignalsKeepFiles(s, runner, pid, survives);
    SignalsKeepFiles(t, runner, pid, survives);
    hide SendTerm, KillGroup, SignalCommand, LifeOf, SetStatus;
    assert KillerAlone(s, KillReadStatus, survives, 8) == KillerAlone(s, KillReadRunner, survives, 7);
    assert KillerAlone(s, KillReadRunner, survives, 7) == KillerAlone(s, KillReadPid(runner), survives, 6);
    assert KillerAlone(s, KillReadPid(runner), survives, 6) == KillerAlone(s, KillTerm(runner, pid), survives, 5);
    var u := Signalled(s, runner, pid, survives);
    if sent {
      assert KillerAlone(s, KillTerm(runner, pid), survives, 5) == KillerAlone(t, KillCheck(runner, pid), survives, 4);
      if pid.Some? && LifeOf(t, pid.value).Answers() {
        assert KillerAlone(t, KillCheck(runner, pid), survives, 4)
            == KillerAlone(t, KillForce(runner, pid), survives, 3);
        assert KillerAlone(t, KillForce(runner, pid), survives, 3) == KillerAlone(u, KillReread, survives, 2);
        StampsAlone(u, survives, 2);
      } else {
        assert KillerAlone(t, KillCheck(runner, pid), survives, 4) == KillerAlone(u, KillReread, survives, 3);
        StampsAlone(u, survives, 3);
      }
    } else {
      assert KillerAlone(s, KillTerm(runner, pid), survives, 5) == KillerAlone(u, KillReread, survives, 4);
      StampsAlone(u, survives, 4);
    }
  }

  lemma StampsAlone(s: Sys, survives: bool, n: nat)
    requires s.dir.Some? && Status(s) == Some(Running) && 2 <= n <= 4
    ensures KillerAlone(s, KillReread, survives, n) == (SetStatus(s, ExitedKilled), Answered(true))
  {
    var t := SetStatus(s, ExitedKilled);
    assert KillerAlone(s, KillReread, survives, n) == KillerAlone(s, KillStamp, survives, n - 1);
    assert KillerAlone(s, KillStamp, survives, n - 1) == KillerAlone(t, Answered(true), survives, n - 2);
    hide SetStatus;
    assert KillerAlone(t, Answered(true), survives, 2) == KillerAlone(t, Answered(true), survives, 1);
  }

  lemma PidsRecorded(s: Sys)
    requires Births(s) && Pipes(s) && Directory(s) && s.dir.Some?
    ensures var f := s.dir.value;
      && (f.runnerPid.Some? ==> f.runnerPid == Some(Runner) && !s.command.Unborn?)
      && (f.pid.Some? ==> f.pid == Some(Command) && f.runnerPid.Some?)
  {
  }

  lemma SignalledCommand(s: Sys, runner: Option<Proc>, pid: Option<Proc>, survives: bool)
    requires runner.Some? ==> runner == Some(Runner) && !s.command.Unborn?
    requires pid.Some? ==> pid == Some(Command) && runner.Some?
    ensures Signalled(s, runner, pid, survives).command.Dead() <==>
      s.command.Dead() || (runner.Some? && (pid.Some? || !(survives && s.commandPc.Program?)))
  {
    if runner.Some? {
      var (t, sent) := SendTerm(s, runner, pid, survives);
      TermCommand(s, pid, survives);
      KillCommand(t);
      hide SendTerm, KillGroup;
    }
  }

  lemma TermCommand(s: Sys, pid: Option<Proc>, survives: bool)
    requires !s.command.Unborn?
    ensures var (t, sent) := SendTerm(s, Some(Runner), pid, survives);
      && (t.command.Dead() <==> s.command.Dead() || !(survives && s.commandPc.Program?))
      && (!sent ==> t.command.Dead()) && !t.command.Unborn?
  {
  }

  lemma KillCommand(s: Sys)
    requires !s.command.Unborn?
    ensures KillGroup(s).command.Dead()
  {
  }

  /** A `kill` left alone with a process whose status says running answers `Killed`, and the
      status is over; the command is dead then if and only if it was before, or the runner is
      recorded and either the command is too or it does not survive SIGTERM. */
  lemma KilledAloneExactly(w: World, survives: bool)
    requires Reachable(w) && w.sys.dir.Some? && Status(w.sys) == Some(Running)
    ensures var s, (t, k), f := w.sys, KillerAlone(w.sys, KillReadStatus, survives, 8), w.sys.dir.value;
      && k == Answered(true) && Status(t) == Some(ExitedKilled)
      && (t.command.Dead() <==>
            s.command.Dead() || (f.runnerPid.Some? && (f.pid.Some? || !(survives && s.commandPc.Program?))))
  {
    ReachableInv(w);
    var f := w.sys.dir.value;
    KillerAloneResult(w.sys, survives);
    PidsRecorded(w.sys);
    SignalledCommand(w.sys, f.runnerPid, f.pid, survives);
    SignalledFiles(w.sys, f.runnerPid, f.pid, survives);
    hide KillerAlone, Signalled, Reachable;
  }

  lemma SignalledFiles(s: Sys, runner: Option<Proc>, pid: Option<Proc>, survives: bool)
    ensures Signalled(s, runner, pid, survives).dir == s.dir
  {
    SignalsKeepFiles(s, runner, pid, survives);
    SignalsKeepFiles(SendTerm(s, runner, pid, survives).0, runner, pid, survives);
    hide SendTerm, KillGroup, SignalCommand;
  }

  /** `clean` takes no newborn and no running command, only one that is dead, has nothing left
      to do but exit, or could not be forked, unless both the runner was signalled, by a `kill`
      or otherwise, and a split resolver stamped. */
  lemma CleanSparesTheLiving(w: World)
    requires Reachable(w) && Clean(w.sys).Some?
    ensures CommandOver(w.sys) || Misled(w.sys)
  {
    ReachableInv(w);
    CleanedIsOver(w.sys);
  }

  /** A command that is not over is taken if and only if its status file says exited(unknown). */
  lemma CleanTakesExactly(w: World)
    requires Reachable(w) && w.sys.dir.Some? && !CommandOver(w.sys)
    ensures Clean(w.sys).Some? <==> Status(w.sys) == Some(ExitedUnknown)
  {
    ReachableInv(w);
    hide Stdin, OwnResolver, SignalRunner, SignalHolder;
  }

  /** A `clean` that resolves call by call relies on no more than that: where it has come to a
      terminal state and the directory is still there, the command is over. */
  lemma SplitCleanSparesTheLiving(w: World, i: nat, st: State)
    requires Reachable(w) && i < |w.clients| && w.clients[i] == Resolving(Resolved(Some(st))) && st != Running
    requires w.sys.dir.Some?
    ensures CommandOver(w.sys) || Misled(w.sys)
  {
    ReachableInv(w);
    assert ClientOk(w.sys, w.clients[i]);
    hide Core, OwnResolver, Recorded, CommandOver;
    if !CommandOver(w.sys) {
      RecordedIsOver(w.sys, st);
    }
  }
}
