/** What every step of the lifecycle protocol keeps, and what it never takes back. */
module LifecycleInvariant {
  import opened Common
  import opened Kernel
  import opened ProcessState
  import opened Lifecycle

  function Progress(s: Sys): nat {
    s.runnerPc.Progress()
  }

  predicate BeforeFork(l: LauncherPc) {
    l.MakeDir? || l.WriteRunning? || l.Fork?
  }

  /** Who has been forked, who is dead, and why. */
  predicate Births(s: Sys) {
    && (BeforeFork(s.launcher) ==> s.runner.Unborn?)
    && (s.runner.Unborn? ==> BeforeFork(s.launcher) || s.launcher.Gone?)
    && (s.runner.Unborn? ==> && s.runnerPc.OpenFifo? && !s.syncW.Any() && !s.readyW.Any() && s.sync.Nothing?
                             && !s.fifo.rw.Any() && !s.log.started)
    && (s.holder.Unborn? ==> s.command.Unborn?)
    && (!s.runnerPc.Failing() ==> (s.holder.Unborn? <==> Progress(s) <= 2) && (s.command.Unborn? <==> Progress(s) <= 3))
    && (s.runnerPc.Failing() ==> s.command.Unborn?)
    && (s.runnerPc.FailStopHolder? ==> !s.holder.Unborn?)
    && (s.command.Unborn? || s.command.Live? <==> s.outcome.None?)
    && (s.outcome.Some? ==> s.outcome.value.Exited? || s.outcome.value.Signaled?)
    && (Progress(s) >= 11 ==> s.command.Reaped?)
    && (s.command.Reaped? ==> Progress(s) >= 11 || s.runner.Dead())
    && (s.holder.Unborn? ==> s.holderPc.HolderCloseSync?)
    && (s.command.Unborn? ==>
          s.commandPc.CommandCloseSync? && s.log.execErrno.None? && !s.fifo.everOpen && !s.readyByte)
    && (s.runner.Dead() && !s.log.runnerSignalled ==> s.runnerPc.RunnerExit? || s.runnerPc.FailExit?)
    && (s.log.runnerSignalled ==> s.runner.Dead())
    && (s.runner.Reaped? ==> s.launcher.Gone?)
    && (s.holder.Reaped? ==> s.runner.Dead())
  }

  /** Who holds the write ends of the two handshake pipes. */
  predicate Pipes(s: Sys) {
    && (s.syncW.launcher ==> s.launcher.CloseSyncWrite?)
    && (s.syncW.runner <==> s.runner.Live? && Progress(s) <= 9)
    && (s.syncW.holder ==> s.holder.Live? && s.holderPc.HolderCloseSync?)
    && (s.syncW.command ==> s.command.Live? && s.commandPc.CommandCloseSync?)
    && (s.sync.Pid? <==> Progress(s) >= 9)
    && (s.sync.Pid? ==> s.sync.p == Command)
    && (s.sync.Zero? <==> s.runnerPc.FailStopHolder? || s.runnerPc.FailExit?)
    && (s.readyW.launcher ==> s.launcher.CloseSyncWrite? || s.launcher.CloseReadyWrite?)
    && (s.readyW.runner <==> s.runner.Live? && Progress(s) <= 5)
    && (s.readyW.holder ==> s.holder.Live? && !s.holderPc.Pause?)
    && (s.readyW.command ==> s.command.Live?)
  }

  predicate BeforeOpen(c: CommandPc) {
    c.CommandCloseSync? || c.CommandCloseFifo? || c.OpenStdin?
  }

  predicate AfterOpen(c: CommandPc) {
    c.SignalReady? || c.CommandCloseReady? || c.Enter? || c.Exec? || c.RecordErrno?
  }

  /** How far the command has come, and what that says of its descriptors. */
  predicate Stdin(s: Sys) {
    && (s.readyByte ==> s.fifo.everOpen)
    && (s.command.Live? && !s.readyByte ==> s.readyW.command)
    && (BeforeOpen(s.commandPc) ==> !s.fifo.everOpen)
    && (s.commandPc.SignalReady? ==> !s.readyByte)
    && (AfterOpen(s.commandPc) || s.commandPc.Program? ==> s.fifo.everOpen)
    && (AfterOpen(s.commandPc) && s.command.Live? ==> s.fifo.attached)
    && (AfterOpen(s.commandPc) && !s.commandPc.SignalReady? ==> s.readyByte)
    && (s.commandPc.Program? ==> s.readyByte)
    && ((|| s.commandPc.Enter? || s.commandPc.Exec? || s.commandPc.RecordErrno?
         || s.commandPc.Program?) ==> !s.readyW.command)
    && (!s.fifo.rw.launcher)
    && (s.fifo.rw.runner ==> s.runner.Live? && Progress(s) <= 4)
    && (s.fifo.rw.holder <==> s.holder.Live?)
    && (s.fifo.rw.command ==> s.command.Live? && (s.commandPc.CommandCloseSync? || s.commandPc.CommandCloseFifo?))
    && (s.fifo.attached ==> s.command.Live?)
    && (s.fifo.feeding ==> s.launcher.Feed? || s.launcher.FeedClose?)
    && s.fifo.Valid()
  }

  /** The command is past the last thing it does as part of the protocol, or never was. */
  predicate CommandOver(s: Sys) {
    s.command.Dead() || s.commandPc.Exit127? || (s.command.Unborn? && s.runnerPc.Failing())
  }

  /** Resolvers may have been misled: the runner was signalled, and one of them stamped. */
  predicate Misled(s: Sys) {
    s.log.stamped && s.log.runnerSignalled
  }

  /** A terminal status is one the protocol had reason to write. */
  predicate Recorded(s: Sys, st: State) {
    match st
    case Running => false
    case ExecFailed(_) => false
    case ExitedKilled => s.log.runnerSignalled && s.command.Dead()
    case ExitedUnknown => s.log.stamped || (s.log.runnerSignalled && s.command.Dead())
    case _ =>
      || (st == Exited(127) && s.runnerPc.Failing())
      || (st == Exited(127) && s.commandPc.Exit127?)
      || (Progress(s) >= 12 && s.outcome == Some(st))
  }

  /** What the files say, and when. */
  predicate Directory(s: Sys) {
    && (s.launcher.MakeDir? ==> s.dir.None?)
    && (s.log.execErrno.Some? ==> s.commandPc.RecordErrno? || s.commandPc.CommandFailStatus? || s.commandPc.Exit127?)
    && (s.commandPc.RecordErrno? ==> s.log.execErrno.Some?)
    && (s.dir.Some? ==>
          var f := s.dir.value;
          && (f.status.None? ==> s.runner.Unborn? && !s.launcher.Fork?)
          && (f.status.Some? && f.status != Some(Running) ==> Recorded(s, f.status.value))
          && (Progress(s) >= 12 ==>
                f.status == s.outcome || f.status == Some(ExitedKilled) || f.status == Some(ExitedUnknown))
          && f.runnerPid == (if Progress(s) >= 7 then Some(Runner) else None)
          && f.holderPid == (if Progress(s) >= 8 then Some(Holder) else None)
          && (f.pid.Some? ==> f.pid == Some(Command) && s.sync.Pid?)
          && (s.launcher.ReadReady? || s.launcher == Return(true) || s.log.startedWithPid ==> f.pid.Some?)
          && (f.execError.Some? ==> f.execError == s.log.execErrno)
          && (s.commandPc.CommandFailStatus? || s.commandPc.Exit127? ==> f.execError == s.log.execErrno)
          && ((|| s.runnerPc.FailReport? || s.runnerPc.FailStopHolder? || s.runnerPc.FailExit?
               || Progress(s) >= 12 || s.commandPc.Exit127?) ==> f.status != Some(Running)))
  }

  /** What the launcher knows when it returns, and what `run` has fed since. */
  predicate Launching(s: Sys) {
    && (BeforeStarted(s.launcher) ==> !s.log.started)
    && (!BeforeStarted(s.launcher) && !s.launcher.Gone? ==> s.log.started)
    && (s.log.startedWithPid ==> s.log.started)
    && ((|| s.launcher.RecordPid? || s.launcher.ReadReady? || s.launcher == Return(true)
         || s.log.startedWithPid) ==> s.sync.Pid?)
    && (s.launcher == Return(true) || s.log.startedWithPid ==> s.fifo.everOpen || s.command.Dead())
    && (s.launcher == Return(false) || (s.log.started && !s.log.startedWithPid) ==>
          s.dir.None? || s.runnerPc.FailStopHolder? || s.runnerPc.FailExit?)
    && (s.log.runnerSignalled ==> s.log.started || s.dir.None?)
    && (s.log.stamped ==> s.launcher.Gone?)
    && (s.launcher.WriteRunning? || s.launcher.Fork? ==> s.dir.Some?)
    && (s.dir.None? && !s.runner.Unborn? ==> CommandOver(s) || Misled(s))
    && (s.log.stamped ==> Progress(s) >= 7 && (s.log.runnerSignalled || s.runner.Reaped?))
    && (s.log.startedWithPid && s.fifo.attached ==> |s.fifo.lost| <= s.log.startMark)
    && (s.fifo.others > 0 ==> s.log.foreign)
    && s.log.fed <= |s.job.body|
    && (!s.log.foreign ==> s.fifo.accepted == s.job.body[..s.log.fed] && s.log.startMark == 0)
    && (s.log.fed > 0 ==> s.log.started)
    && (s.launcher.Started? || s.launcher.FeedOpen? ==> s.log.fed == 0)
    && (s.launcher == FeedClose(true) ==> s.log.fed == |s.job.body|)
    && (s.commandPc.Exit127? && s.outcome.Some? && !s.log.commandSignalled ==> s.outcome == Some(Exited(127)))
  }

  /** What a resolver under way may rely on. */
  predicate ResolverOk(s: Sys, r: Resolver) {
    && (s.launcher.MakeDir? ==> r.ReadStatus? || r == Resolved(None))
    && match r
       case ReadStatus => true
       case ReadPid => true
       case ReadMarker(st) => Recorded(s, st)
       case ReadRunner(pid) => pid.Some? ==> pid == Some(Command) && s.sync.Pid?
       case CheckCommand(pid, runner) => (pid.Some? ==> pid == Some(Command)) && RunnerKnown(s, runner)
       case CheckRunner(runner) => RunnerKnown(s, runner)
       case Heal => s.dir.Some? ==> s.launcher.Gone? && s.runner.Reaped? && Progress(s) >= 7
       case Resolved(result) =>
         match result
         case None => true
         case Some(Running) => true
         case Some(ExecFailed(e)) => s.log.execErrno == Some(e) && (CommandOver(s) || s.log.stamped)
         case Some(ExitedUnknown) => s.dir.Some? ==> Recorded(s, ExitedUnknown)
         case Some(st) => && Recorded(s, st)
                          && (s.dir.Some? && s.commandPc.Exit127? ==> s.log.execErrno.None?)
  }

  predicate RunnerKnown(s: Sys, runner: Option<Proc>) {
    (runner.Some? ==> runner == Some(Runner) && Progress(s) >= 7) && (s.dir.Some? ==> runner.Some?)
  }

  predicate OwnResolver(s: Sys) {
    match s.launcher
    case CloseResolve(r) => ResolverOk(s, r)
    case Poll(r) => ResolverOk(s, r)
    case Finished(st) => st != Running && ResolverOk(s, Resolved(Some(st)))
    case _ => true
  }

  predicate Core(s: Sys) {
    Births(s) && Pipes(s) && Stdin(s) && Directory(s) && Launching(s)
  }

  predicate Inv(s: Sys) {
    Core(s) && OwnResolver(s)
  }

  predicate Soft(st: Option<State>) {
    st == Some(Running) || st == Some(ExitedKilled) || st == Some(ExitedUnknown)
  }

  /** What no step takes back. */
  predicate Grows(s: Sys, t: Sys) {
    && t.job == s.job
    && (t.dir.Some? && !s.launcher.MakeDir? ==> s.dir.Some?)
    && (!s.launcher.MakeDir? ==> !t.launcher.MakeDir?)
    && (s.launcher.Gone? ==> t.launcher.Gone?)
    && (s.log.started ==> t.log.started && t.log.startedWithPid == s.log.startedWithPid)
    && (s.log.runnerSignalled ==> t.log.runnerSignalled)
    && (s.log.stamped ==> t.log.stamped)
    && (s.log.execErrno.Some? ==> t.log.execErrno == s.log.execErrno)
    && (s.runner.Dead() ==> t.runner.Dead() && t.runnerPc == s.runnerPc)
    && (s.runner.Reaped? ==> t.runner.Reaped?)
    && (s.runner.Unborn? && s.launcher.Gone? ==> t.runner.Unborn?)
    && (s.runnerPc.Failing() ==> t.runnerPc.Failing())
    && (Progress(s) >= 4 ==> Progress(s) <= Progress(t))
    && (s.sync.Pid? ==> t.sync == s.sync)
    && (s.command.Dead() ==> t.command.Dead() && t.commandPc == s.commandPc && t.outcome == s.outcome)
    && (s.commandPc.Exit127? ==> t.commandPc.Exit127? && t.log.execErrno == s.log.execErrno)
    && (s.commandPc.Program? ==> t.commandPc.Program?)
    && (t.dir.Some? && s.dir.Some? ==>
          && (s.dir.value.status.Some? && s.dir.value.status != Some(Running) ==>
                t.dir.value.status.Some? && t.dir.value.status != Some(Running))
          && (s.runner.Dead() && s.command.Dead() && Soft(s.dir.value.status) ==> Soft(t.dir.value.status)))
  }
}
