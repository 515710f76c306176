/** Each step of the lifecycle protocol keeps the invariant and takes nothing back. */
module LifecycleKeeps {
  import opened Common
  import opened Kernel
  import opened ProcessState
  import opened Lifecycle
  import opened LifecycleInvariant

  lemma GrowsOn(s: Sys, t: Sys, u: Sys)
    requires Grows(s, t) && Grows(t, u) && !t.launcher.MakeDir?
    ensures Grows(s, u)
  {
  }

  // ---- Deaths ----------------------------------------------------------------

  lemma HolderDiesHere(s: Sys, t: Sys)
    requires Core(s) && t == SignalHolder(s)
    ensures Births(t) && Pipes(t) && Directory(t)
  {
  }

  lemma HolderDiesThere(s: Sys, t: Sys)
    requires Core(s) && t == SignalHolder(s)
    ensures Launching(t) && Grows(s, t)
  {
  }

  lemma HolderDiesStdin(s: Sys, t: Sys)
    requires Core(s) && t == SignalHolder(s)
    ensures Stdin(t)
  {
  }

  lemma HolderDies(s: Sys, t: Sys)
    requires Core(s) && t == SignalHolder(s)
    ensures Core(t) && Grows(s, t)
  {
    HolderDiesHere(s, t);
    HolderDiesThere(s, t);
    HolderDiesStdin(s, t);
  }

  lemma CommandDiesHere(s: Sys, sig: int, t: Sys)
    requires Core(s) && t == SignalCommand(s, sig)
    ensures Births(t) && Pipes(t) && Directory(t)
  {
  }

  lemma CommandDiesThere(s: Sys, sig: int, t: Sys)
    requires Core(s) && t == SignalCommand(s, sig)
    ensures Launching(t)
  {
  }

  lemma CommandDiesGrows(s: Sys, sig: int, t: Sys)
    requires Core(s) && t == SignalCommand(s, sig)
    ensures Grows(s, t)
  {
  }

  lemma CommandDiesStdin(s: Sys, sig: int, t: Sys)
    requires Core(s) && t == SignalCommand(s, sig)
    ensures Stdin(t)
  {
  }

  lemma CommandDies(s: Sys, sig: int, t: Sys)
    requires Core(s) && t == SignalCommand(s, sig)
    ensures Core(t) && Grows(s, t)
  {
    CommandDiesHere(s, sig, t);
    CommandDiesThere(s, sig, t);
    CommandDiesGrows(s, sig, t);
    CommandDiesStdin(s, sig, t);
  }

  lemma RunnerDiesHere(s: Sys, t: Sys)
    requires Core(s) && (s.log.started || s.dir.None?) && t == SignalRunner(s)
    ensures Births(t) && Pipes(t)
  {
  }

  lemma RunnerDiesRecorded(s: Sys, t: Sys)
    requires Core(s) && (s.log.started || s.dir.None?) && t == SignalRunner(s)
    ensures Directory(t)
  {
  }

  lemma RunnerDiesThere(s: Sys, t: Sys)
    requires Core(s) && (s.log.started || s.dir.None?) && t == SignalRunner(s)
    ensures Launching(t)
  {
  }

  lemma RunnerDiesGrows(s: Sys, t: Sys)
    requires Core(s) && (s.log.started || s.dir.None?) && t == SignalRunner(s)
    ensures Grows(s, t)
  {
  }

  lemma RunnerDiesStdin(s: Sys, t: Sys)
    requires Core(s) && (s.log.started || s.dir.None?) && t == SignalRunner(s)
    ensures Stdin(t)
  {
  }

  lemma RunnerDies(s: Sys, t: Sys)
    requires Core(s) && (s.log.started || s.dir.None?) && t == SignalRunner(s)
    ensures Core(t) && Grows(s, t)
  {
    RunnerDiesHere(s, t);
    RunnerDiesRecorded(s, t);
    RunnerDiesThere(s, t);
    RunnerDiesGrows(s, t);
    RunnerDiesStdin(s, t);
  }

  /** What a composed step needs to know of the FIFO. */
  lemma FifoValid(s: Sys)
    requires Core(s)
    ensures s.fifo.Valid() && (s.fifo.feeding ==> s.launcher.Feed? || s.launcher.FeedClose?)
    ensures s.log.fed <= |s.job.body| && (s.fifo.others > 0 ==> s.log.foreign)
    ensures s.launcher.Started? || s.launcher.FeedOpen? ==> s.log.fed == 0
  {
  }

  lemma DirMade(s: Sys)
    requires Core(s) && s.dir.Some?
    ensures !s.launcher.MakeDir?
  {
  }

  /** Changes of the FIFO's contents and of its other writers. */
  lemma FifoMovesHere(s: Sys, t: Sys)
    requires Core(s) && t == s.(fifo := t.fifo, log := s.log.(foreign := t.log.foreign))
    requires t.fifo.Valid() && t.fifo.rw == s.fifo.rw
    requires t.fifo.everOpen == s.fifo.everOpen && t.fifo.attached == s.fifo.attached
    requires t.fifo.attached ==> t.fifo.lost == s.fifo.lost
    requires t.fifo.feeding ==> s.launcher.Feed? || s.launcher.FeedClose?
    requires t.fifo.others > 0 || s.log.foreign ==> t.log.foreign
    requires !t.log.foreign ==> t.fifo.accepted == s.fifo.accepted
    ensures Births(t) && Pipes(t) && Directory(t)
  {
  }

  lemma FifoMovesThere(s: Sys, t: Sys)
    requires Core(s) && t == s.(fifo := t.fifo, log := s.log.(foreign := t.log.foreign))
    requires t.fifo.Valid() && t.fifo.rw == s.fifo.rw
    requires t.fifo.everOpen == s.fifo.everOpen && t.fifo.attached == s.fifo.attached
    requires t.fifo.attached ==> t.fifo.lost == s.fifo.lost
    requires t.fifo.feeding ==> s.launcher.Feed? || s.launcher.FeedClose?
    requires t.fifo.others > 0 || s.log.foreign ==> t.log.foreign
    requires !t.log.foreign ==> t.fifo.accepted == s.fifo.accepted
    ensures Stdin(t) && Launching(t) && Grows(s, t)
  {
  }

  lemma FifoMoves(s: Sys, t: Sys)
    requires Core(s) && t == s.(fifo := t.fifo, log := s.log.(foreign := t.log.foreign))
    requires t.fifo.Valid() && t.fifo.rw == s.fifo.rw
    requires t.fifo.everOpen == s.fifo.everOpen && t.fifo.attached == s.fifo.attached
    requires t.fifo.attached ==> t.fifo.lost == s.fifo.lost
    requires t.fifo.feeding ==> s.launcher.Feed? || s.launcher.FeedClose?
    requires t.fifo.others > 0 || s.log.foreign ==> t.log.foreign
    requires !t.log.foreign ==> t.fifo.accepted == s.fifo.accepted
    ensures Core(t) && Grows(s, t)
  {
    FifoMovesHere(s, t);
    FifoMovesThere(s, t);
  }

  /** Moves of the launcher alone, once it has returned `Started`. */
  lemma LauncherHops(s: Sys, t: Sys)
    requires Core(s) && t == s.(launcher := t.launcher)
    requires !BeforeStarted(s.launcher) && !s.launcher.Gone? && !BeforeStarted(t.launcher) && !t.launcher.Gone?
    requires t.launcher == FeedClose(true) ==> s.log.fed == |s.job.body|
    requires t.launcher.Started? || t.launcher.FeedOpen? ==> s.log.fed == 0
    requires s.fifo.feeding ==> t.launcher.Feed? || t.launcher.FeedClose?
    ensures Core(t) && Grows(s, t)
  {
  }

  // ---- The runner ------------------------------------------------------------

  lemma RunnerOpenFifo(s: Sys, fails: bool, t: Sys)
    requires Core(s) && s.runnerPc.OpenFifo? && RunnerStep(s, fails) == Some(t)
    ensures Core(t) && Grows(s, t)
  {
  }

  lemma RunnerOpenOutputs(s: Sys, fails: bool, t: Sys)
    requires Core(s) && s.runnerPc.OpenOutputs? && RunnerStep(s, fails) == Some(t)
    ensures Core(t) && Grows(s, t)
  {
  }

  lemma RunnerForkHolder(s: Sys, fails: bool, t: Sys)
    requires Core(s) && s.runnerPc.ForkHolder? && RunnerStep(s, fails) == Some(t)
    ensures Core(t) && Grows(s, t)
  {
  }

  lemma RunnerForkCommand(s: Sys, fails: bool, t: Sys)
    requires Core(s) && s.runnerPc.ForkCommand? && RunnerStep(s, fails) == Some(t)
    ensures Core(t) && Grows(s, t)
  {
  }

  lemma RunnerCloseFifo(s: Sys, fails: bool, t: Sys)
    requires Core(s) && s.runnerPc.CloseFifo? && RunnerStep(s, fails) == Some(t)
    ensures Core(t) && Grows(s, t)
  {
  }

  lemma RunnerCloseReady(s: Sys, fails: bool, t: Sys)
    requires Core(s) && s.runnerPc.CloseReady? && RunnerStep(s, fails) == Some(t)
    ensures Core(t) && Grows(s, t)
  {
  }

  lemma RunnerRecord(s: Sys, fails: bool, t: Sys)
    requires Core(s) && s.runnerPc.RecordRunner? && RunnerStep(s, fails) == Some(t)
    ensures Core(t) && Grows(s, t)
  {
  }

  lemma RunnerRecordHolder(s: Sys, fails: bool, t: Sys)
    requires Core(s) && s.runnerPc.RecordHolder? && RunnerStep(s, fails) == Some(t)
    ensures Core(t) && Grows(s, t)
  {
  }

  lemma RunnerReportPid(s: Sys, fails: bool, t: Sys)
    requires Core(s) && s.runnerPc.ReportPid? && RunnerStep(s, fails) == Some(t)
    ensures Core(t) && Grows(s, t)
  {
  }

  lemma RunnerCloseSync(s: Sys, fails: bool, t: Sys)
    requires Core(s) && s.runnerPc.CloseSync? && RunnerStep(s, fails) == Some(t)
    ensures Core(t) && Grows(s, t)
  {
  }

  lemma RunnerReap(s: Sys, fails: bool, t: Sys)
    requires Core(s) && s.runnerPc.Reap? && RunnerStep(s, fails) == Some(t)
    ensures Core(t) && Grows(s, t)
  {
  }

  lemma RunnerRecordOutcome(s: Sys, fails: bool, t: Sys)
    requires Core(s) && s.runnerPc.RecordOutcome? && RunnerStep(s, fails) == Some(t)
    ensures Core(t) && Grows(s, t)
  {
  }

  lemma RunnerStopHolderHops(s: Sys, t: Sys)
    requires Core(s) && s.runner.Live? && s.runnerPc.StopHolder? && !s.holder.Unborn?
    requires t == s.(runnerPc := RunnerExit)
    ensures Core(t) && Grows(s, t)
  {
  }

  lemma RunnerStopHolder(s: Sys, fails: bool, t: Sys)
    requires Core(s) && s.runnerPc.StopHolder? && RunnerStep(s, fails) == Some(t)
    ensures Core(t) && Grows(s, t)
  {
    var u := SignalHolder(s);
    HolderDies(s, u);
    RunnerStopHolderHops(u, t);
    hide SignalHolder, DieHolder, RunnerStep, Core;
    GrowsOn(s, u, t);
  }

  lemma RunnerExits(s: Sys, fails: bool, t: Sys)
    requires Core(s) && s.runnerPc.RunnerExit? && RunnerStep(s, fails) == Some(t)
    ensures Core(t) && Grows(s, t)
  {
  }

  lemma RunnerFailStatus(s: Sys, fails: bool, t: Sys)
    requires Core(s) && s.runnerPc.FailStatus? && RunnerStep(s, fails) == Some(t)
    ensures Core(t) && Grows(s, t)
  {
  }

  lemma RunnerFailReport(s: Sys, fails: bool, t: Sys)
    requires Core(s) && s.runnerPc.FailReport? && RunnerStep(s, fails) == Some(t)
    ensures Core(t) && Grows(s, t)
  {
  }

  lemma RunnerFailStopHolderHops(s: Sys, t: Sys)
    requires Core(s) && s.runner.Live? && s.runnerPc.FailStopHolder? && !s.holder.Unborn?
    requires t == s.(runnerPc := FailExit)
    ensures Core(t) && Grows(s, t)
  {
  }

  lemma RunnerFailStopHolder(s: Sys, fails: bool, t: Sys)
    requires Core(s) && s.runnerPc.FailStopHolder? && RunnerStep(s, fails) == Some(t)
    ensures Core(t) && Grows(s, t)
  {
    var u := SignalHolder(s);
    HolderDies(s, u);
    RunnerFailStopHolderHops(u, t);
    hide SignalHolder, DieHolder, RunnerStep, Core;
    GrowsOn(s, u, t);
  }

  lemma RunnerFailExit(s: Sys, fails: bool, t: Sys)
    requires Core(s) && s.runnerPc.FailExit? && RunnerStep(s, fails) == Some(t)
    ensures Core(t) && Grows(s, t)
  {
  }

  // ---- The holder and the command --------------------------------------------

  lemma HolderSync(s: Sys, t: Sys)
    requires Core(s) && s.holderPc.HolderCloseSync? && HolderStep(s) == Some(t)
    ensures Core(t) && Grows(s, t)
  {
  }

  lemma HolderReady(s: Sys, t: Sys)
    requires Core(s) && s.holderPc.HolderCloseReady? && HolderStep(s) == Some(t)
    ensures Core(t) && Grows(s, t)
  {
  }

  lemma CommandCloseSync(s: Sys, c: CommandChoice, t: Sys)
    requires Core(s) && s.commandPc.CommandCloseSync? && CommandStep(s, c) == Some(t)
    ensures Core(t) && Grows(s, t)
  {
  }

  lemma CommandCloseFifo(s: Sys, c: CommandChoice, t: Sys)
    requires Core(s) && s.commandPc.CommandCloseFifo? && CommandStep(s, c) == Some(t)
    ensures Core(t) && Grows(s, t)
  {
  }

  lemma CommandOpenStdinFails(s: Sys, c: CommandChoice, t: Sys)
    requires Core(s) && s.commandPc.OpenStdin? && c.Fail? && CommandStep(s, c) == Some(t)
    ensures Core(t) && Grows(s, t)
  {
  }

  lemma CommandOpenStdinWorks(s: Sys, c: CommandChoice, t: Sys)
    requires Core(s) && s.commandPc.OpenStdin? && !c.Fail? && CommandStep(s, c) == Some(t)
    ensures Core(t) && Grows(s, t)
  {
  }

  lemma CommandSignalReady(s: Sys, c: CommandChoice, t: Sys)
    requires Core(s) && s.commandPc.SignalReady? && CommandStep(s, c) == Some(t)
    ensures Core(t) && Grows(s, t)
  {
  }

  lemma CommandCloseReady(s: Sys, c: CommandChoice, t: Sys)
    requires Core(s) && s.commandPc.CommandCloseReady? && CommandStep(s, c) == Some(t)
    ensures Core(t) && Grows(s, t)
  {
  }

  lemma CommandEnter(s: Sys, c: CommandChoice, t: Sys)
    requires Core(s) && s.commandPc.Enter? && CommandStep(s, c) == Some(t)
    ensures Core(t) && Grows(s, t)
  {
  }

  lemma CommandExecFails(s: Sys, c: CommandChoice, t: Sys)
    requires Core(s) && s.commandPc.Exec? && c.Fail? && CommandStep(s, c) == Some(t)
    ensures Core(t) && Grows(s, t)
  {
  }

  lemma CommandExecWorks(s: Sys, c: CommandChoice, t: Sys)
    requires Core(s) && s.commandPc.Exec? && !c.Fail? && CommandStep(s, c) == Some(t)
    ensures Core(t) && Grows(s, t)
  {
  }

  lemma CommandRecordErrno(s: Sys, c: CommandChoice, t: Sys)
    requires Core(s) && s.commandPc.RecordErrno? && CommandStep(s, c) == Some(t)
    ensures Core(t) && Grows(s, t)
  {
  }

  lemma CommandFailStatusHere(s: Sys, c: CommandChoice, t: Sys)
    requires Core(s) && s.commandPc.CommandFailStatus? && CommandStep(s, c) == Some(t)
    ensures Births(t) && Pipes(t) && Directory(t)
  {
  }

  lemma CommandFailStatusThere(s: Sys, c: CommandChoice, t: Sys)
    requires Core(s) && s.commandPc.CommandFailStatus? && CommandStep(s, c) == Some(t)
    ensures Stdin(t) && Launching(t) && Grows(s, t)
  {
  }

  lemma CommandFailStatus(s: Sys, c: CommandChoice, t: Sys)
    requires Core(s) && s.commandPc.CommandFailStatus? && CommandStep(s, c) == Some(t)
    ensures Core(t) && Grows(s, t)
  {
    CommandFailStatusHere(s, c, t);
    CommandFailStatusThere(s, c, t);
  }

  lemma CommandExit127Here(s: Sys, c: CommandChoice, t: Sys)
    requires Core(s) && s.commandPc.Exit127? && CommandStep(s, c) == Some(t)
    ensures Births(t) && Pipes(t) && Directory(t)
  {
  }

  lemma CommandExit127There(s: Sys, c: CommandChoice, t: Sys)
    requires Core(s) && s.commandPc.Exit127? && CommandStep(s, c) == Some(t)
    ensures Stdin(t) && Launching(t) && Grows(s, t)
  {
  }

  lemma CommandExit127(s: Sys, c: CommandChoice, t: Sys)
    requires Core(s) && s.commandPc.Exit127? && CommandStep(s, c) == Some(t)
    ensures Core(t) && Grows(s, t)
  {
    CommandExit127Here(s, c, t);
    CommandExit127There(s, c, t);
  }

  lemma ProgramTake(s: Sys, c: CommandChoice, t: Sys)
    requires Core(s) && s.commandPc.Program? && c.Take? && CommandStep(s, c) == Some(t)
    ensures Core(t) && Grows(s, t)
  {
    FifoMoves(s, t);
  }

  lemma ProgramCloseStdin(s: Sys, c: CommandChoice, t: Sys)
    requires Core(s) && s.commandPc.Program? && c.CloseStdin? && CommandStep(s, c) == Some(t)
    ensures Core(t) && Grows(s, t)
  {
  }

  lemma ProgramQuit(s: Sys, c: CommandChoice, t: Sys)
    requires Core(s) && s.commandPc.Program? && c.Quit? && CommandStep(s, c) == Some(t)
    ensures Core(t) && Grows(s, t)
  {
  }

  // ---- The launcher ----------------------------------------------------------

  lemma LauncherMakeDir(s: Sys, c: LauncherChoice, t: Sys)
    requires Core(s) && s.launcher.MakeDir? && StartStep(s, c) == Some(t)
    ensures Core(t) && Grows(s, t)
  {
  }

  lemma LauncherWriteRunning(s: Sys, c: LauncherChoice, t: Sys)
    requires Core(s) && s.launcher.WriteRunning? && StartStep(s, c) == Some(t)
    ensures Core(t) && Grows(s, t)
  {
  }

  lemma LauncherFork(s: Sys, c: LauncherChoice, t: Sys)
    requires Core(s) && s.launcher.Fork? && StartStep(s, c) == Some(t)
    ensures Core(t) && Grows(s, t)
  {
  }

  lemma LauncherCloseSyncWrite(s: Sys, c: LauncherChoice, t: Sys)
    requires Core(s) && s.launcher.CloseSyncWrite? && StartStep(s, c) == Some(t)
    ensures Core(t) && Grows(s, t)
  {
  }

  lemma LauncherCloseReadyWrite(s: Sys, c: LauncherChoice, t: Sys)
    requires Core(s) && s.launcher.CloseReadyWrite? && StartStep(s, c) == Some(t)
    ensures Core(t) && Grows(s, t)
  {
  }

  lemma LauncherReadSyncHere(s: Sys, c: LauncherChoice, t: Sys)
    requires Core(s) && s.launcher.ReadSync? && StartStep(s, c) == Some(t)
    ensures Births(t) && Pipes(t) && Directory(t)
  {
  }

  lemma LauncherReadSyncThere(s: Sys, c: LauncherChoice, t: Sys)
    requires Core(s) && s.launcher.ReadSync? && StartStep(s, c) == Some(t)
    ensures Stdin(t) && Launching(t) && Grows(s, t)
  {
  }

  lemma LauncherReadSync(s: Sys, c: LauncherChoice, t: Sys)
    requires Core(s) && s.launcher.ReadSync? && StartStep(s, c) == Some(t)
    ensures Core(t) && Grows(s, t)
  {
    LauncherReadSyncHere(s, c, t);
    LauncherReadSyncThere(s, c, t);
  }

  lemma LauncherRecordPidFiles(s: Sys, c: LauncherChoice, t: Sys)
    requires Core(s) && s.launcher.RecordPid? && StartStep(s, c) == Some(t)
    ensures Directory(t)
  {
  }

  lemma LauncherRecordPidHere(s: Sys, t: Sys)
    requires Core(s) && s.launcher.RecordPid? && t == s.(launcher := ReadReady, dir := t.dir)
    ensures Births(t) && Pipes(t) && Stdin(t)
  {
  }

  lemma LauncherRecordPidThere(s: Sys, c: LauncherChoice, t: Sys)
    requires Core(s) && s.launcher.RecordPid? && StartStep(s, c) == Some(t)
    ensures Launching(t) && Grows(s, t) && t == s.(launcher := ReadReady, dir := t.dir)
  {
    hide Directory, Stdin;
  }

  lemma LauncherRecordPid(s: Sys, c: LauncherChoice, t: Sys)
    requires Core(s) && s.launcher.RecordPid? && StartStep(s, c) == Some(t)
    ensures Core(t) && Grows(s, t)
  {
    LauncherRecordPidFiles(s, c, t);
    LauncherRecordPidThere(s, c, t);
    LauncherRecordPidHere(s, t);
  }

  lemma LauncherReadReady(s: Sys, c: LauncherChoice, t: Sys)
    requires Core(s) && s.launcher.ReadReady? && StartStep(s, c) == Some(t)
    ensures Core(t) && Grows(s, t)
  {
  }

  lemma LauncherReturnHere(s: Sys, c: LauncherChoice, t: Sys)
    requires Core(s) && s.launcher.Return? && StartStep(s, c) == Some(t)
    ensures Births(t) && Pipes(t) && Stdin(t) && Directory(t)
  {
  }

  lemma LauncherReturnThere(s: Sys, c: LauncherChoice, t: Sys)
    requires Core(s) && s.launcher.Return? && StartStep(s, c) == Some(t)
    ensures Launching(t) && Grows(s, t)
  {
  }

  lemma LauncherReturn(s: Sys, c: LauncherChoice, t: Sys)
    requires Core(s) && s.launcher.Return? && StartStep(s, c) == Some(t)
    ensures Core(t) && Grows(s, t)
  {
    LauncherReturnHere(s, c, t);
    LauncherReturnThere(s, c, t);
  }

  lemma FeedingStarts(s: Sys, t: Sys)
    requires Core(s) && s.launcher.Feed? && t == s.(fifo := s.fifo.(feeding := true))
    ensures Core(t) && Grows(s, t)
  {
  }

  lemma Feeds(s: Sys, t: Sys)
    requires Core(s) && s.launcher.Feed? && s.log.fed <= t.log.fed <= |s.job.body|
    requires t == s.(fifo := t.fifo, log := s.log.(fed := t.log.fed)) && t.fifo.Valid()
    requires t.fifo.accepted == s.fifo.accepted + s.job.body[s.log.fed..t.log.fed]
    requires t.fifo == s.fifo.(buf := t.fifo.buf, accepted := t.fifo.accepted)
    ensures Core(t) && Grows(s, t)
  {
    TakeMore(s.job.body, s.log.fed, t.log.fed);
  }

  lemma LauncherStarted(s: Sys, t: Sys)
    requires Core(s) && s.launcher.Started? && StdinStep(s) == Some(t)
    ensures Core(t) && Grows(s, t)
  {
    LauncherHops(s, t);
  }

  lemma LauncherFeedOpen(s: Sys, t: Sys)
    requires Core(s) && s.launcher.FeedOpen? && StdinStep(s) == Some(t)
    ensures Core(t) && Grows(s, t)
  {
    FifoValid(s);
    hide Core, Grows, Fifo.Valid;
    var u := s.(launcher := t.launcher);
    LauncherHops(s, u);
    if t.launcher.Feed? {
      FeedingStarts(u, t);
      GrowsOn(s, u, t);
    }
  }

  lemma LauncherFeedClose(s: Sys, t: Sys)
    requires Core(s) && s.launcher.FeedClose? && StdinStep(s) == Some(t)
    ensures Core(t) && Grows(s, t)
  {
    FifoValid(s);
    hide Core, Grows;
    var u := s.(fifo := t.fifo);
    FifoMoves(s, u);
    LauncherHops(u, t);
    GrowsOn(s, u, t);
  }

  lemma LauncherCloseCheck(s: Sys, t: Sys)
    requires Core(s) && s.launcher.CloseCheck? && StdinStep(s) == Some(t)
    ensures Core(t) && Grows(s, t)
  {
    LauncherHops(s, t);
  }

  lemma LauncherCloseKill(s: Sys, t: Sys)
    requires Core(s) && s.launcher.CloseKill? && StdinStep(s) == Some(t)
    ensures Core(t) && Grows(s, t)
  {
    var u := SignalHolder(s);
    HolderDies(s, u);
    LauncherHops(s, s.(launcher := CloseResolve(ReadStatus)));
    LauncherHops(u, u.(launcher := Poll(ReadStatus)));
    hide Core, SignalHolder, DieHolder;
    GrowsOn(s, u, u.(launcher := Poll(ReadStatus)));
  }

  lemma LauncherFeeds(s: Sys, c: LauncherChoice, t: Sys)
    requires Core(s) && s.launcher.Feed? && t.launcher.Feed? && FeedStep(s, c) == Some(t)
    ensures Core(t) && Grows(s, t)
  {
    FifoValid(s);
    hide Core, Grows;
    Feeds(s, t);
  }

  lemma LauncherFeed(s: Sys, c: LauncherChoice, t: Sys)
    requires Core(s) && s.launcher.Feed? && FeedStep(s, c) == Some(t)
    ensures Core(t) && Grows(s, t)
  {
    FifoValid(s);
    hide Core, Grows;
    if t.launcher.FeedClose? {
      LauncherHops(s, t);
    } else {
      LauncherFeeds(s, c, t);
    }
  }

  /** A resolver moves nothing until it heals. */
  lemma HealingHere(s: Sys, t: Sys)
    requires Core(s) && ResolverOk(s, Heal) && t == ResolverStep(s, Heal).0
    ensures Births(t) && Pipes(t) && Directory(t)
    ensures !s.launcher.Gone? ==> t == s
  {
  }

  lemma HealingThere(s: Sys, t: Sys)
    requires Core(s) && ResolverOk(s, Heal) && t == ResolverStep(s, Heal).0
    ensures Stdin(t) && Launching(t) && Grows(s, t)
  {
  }

  lemma Healing(s: Sys, t: Sys)
    requires Core(s) && ResolverOk(s, Heal) && t == ResolverStep(s, Heal).0
    ensures Core(t) && Grows(s, t)
    ensures !s.launcher.Gone? ==> t == s
  {
    HealingHere(s, t);
    HealingThere(s, t);
  }

  /** Polling moves the launcher only, unless it is about to heal. */
  lemma PollHops(s: Sys, c: LauncherChoice, t: Sys)
    requires PollStep(s, c) == Some(t)
    ensures s.launcher.CloseResolve? || s.launcher.Poll?
    ensures !t.launcher.MakeDir? && !BeforeStarted(t.launcher) && !t.launcher.Gone? && !t.launcher.FeedClose?
    ensures t.(launcher := s.launcher) == if s.launcher.r.Heal? then ResolverStep(s, Heal).0 else s
  {
  }

  lemma LauncherResolve(s: Sys, c: LauncherChoice, t: Sys)
    requires Core(s) && OwnResolver(s) && PollStep(s, c) == Some(t)
    ensures Core(t) && Grows(s, t)
  {
    FifoValid(s);
    PollHops(s, c, t);
    hide Core, Grows, ResolverOk, PollStep, ResolverStep;
    if s.launcher.r.Heal? {
      Healing(s, ResolverStep(s, Heal).0);
    }
    LauncherHops(s, t);
  }

  lemma Vanish(s: Sys, t: Sys)
    requires Core(s) && t == LauncherVanish(s)
    ensures Core(t) && Grows(s, t)
  {
  }

  // ---- Everybody else --------------------------------------------------------

  lemma RunnerReapedKeepsHere(s: Sys, a: Action, t: Sys)
    requires Core(s) && a.RunnerReaped? && Step(s, a) == Some(t)
    ensures Births(t) && Pipes(t) && Directory(t)
  {
  }

  lemma RunnerReapedKeepsThere(s: Sys, a: Action, t: Sys)
    requires Core(s) && a.RunnerReaped? && Step(s, a) == Some(t)
    ensures Stdin(t) && Launching(t) && Grows(s, t)
  {
  }

  lemma RunnerReapedKeeps(s: Sys, a: Action, t: Sys)
    requires Core(s) && a.RunnerReaped? && Step(s, a) == Some(t)
    ensures Core(t) && Grows(s, t)
  {
    RunnerReapedKeepsHere(s, a, t);
    RunnerReapedKeepsThere(s, a, t);
  }

  lemma HolderReapedKeepsHere(s: Sys, a: Action, t: Sys)
    requires Core(s) && a.HolderReaped? && Step(s, a) == Some(t)
    ensures Births(t) && Pipes(t) && Directory(t)
  {
  }

  lemma HolderReapedKeepsThere(s: Sys, a: Action, t: Sys)
    requires Core(s) && a.HolderReaped? && Step(s, a) == Some(t)
    ensures Stdin(t) && Launching(t) && Grows(s, t)
  {
  }

  lemma HolderReapedKeeps(s: Sys, a: Action, t: Sys)
    requires Core(s) && a.HolderReaped? && Step(s, a) == Some(t)
    ensures Core(t) && Grows(s, t)
  {
    HolderReapedKeepsHere(s, a, t);
    HolderReapedKeepsThere(s, a, t);
  }

  lemma CommandReapedKeeps(s: Sys, a: Action, t: Sys)
    requires Core(s) && a.CommandReaped? && Step(s, a) == Some(t)
    ensures Core(t) && Grows(s, t)
  {
  }

  lemma OthersKeep(s: Sys, a: Action, t: Sys)
    requires Core(s) && (a.OtherOpens? || a.OtherWrites? || a.OtherCloses?) && Step(s, a) == Some(t)
    ensures Core(t) && Grows(s, t)
  {
    FifoMoves(s, t);
  }

  lemma ObservingHere(s: Sys, t: Sys)
    requires Core(s) && t == Observe(s)
    ensures Births(t) && Pipes(t) && Stdin(t) && Directory(t)
  {
  }

  lemma ObservingThere(s: Sys, t: Sys)
    requires Core(s) && t == Observe(s)
    ensures Launching(t) && Grows(s, t)
  {
  }

  lemma Observing(s: Sys, t: Sys)
    requires Core(s) && t == Observe(s)
    ensures Core(t) && Grows(s, t)
  {
    ObservingHere(s, t);
    ObservingThere(s, t);
  }

  lemma RecordedIsOver(s: Sys, st: State)
    requires Core(s) && (Recorded(s, st) || s.log.stamped)
    ensures CommandOver(s) || Misled(s)
  {
    hide Pipes, Stdin;
  }

  lemma SnapshotIsRecorded(s: Sys)
    requires Core(s)
    ensures var st := Snapshot(s).0;
      st.None? || st == Some(Running) || s.log.stamped || CommandOver(s) || Recorded(s, Status(s).value)
  {
    hide Stdin, SignalRunner, SignalHolder;
  }

  /** What `clean` removes is over, as far as it can know. */
  lemma CleanedIsOver(s: Sys)
    requires Core(s) && Clean(s).Some?
    ensures CommandOver(s) || Misled(s)
  {
    SnapshotIsRecorded(s);
    if !CommandOver(s) {
      RecordedIsOver(s, Status(s).value);
    }
    hide Core, Recorded, SignalRunner, SignalHolder;
  }

  lemma CleanedIsForked(s: Sys)
    requires Core(s) && Clean(s).Some?
    ensures !s.runner.Unborn? && !BeforeFork(s.launcher) && s.dir.Some?
  {
    hide Stdin, SignalRunner, SignalHolder;
  }

  lemma Removing(s: Sys, t: Sys)
    requires Core(s) && !BeforeFork(s.launcher) && (CommandOver(s) || Misled(s)) && t == s.(dir := None)
    ensures Core(t) && Grows(s, t)
  {
  }

  lemma Cleaning(s: Sys, t: Sys)
    requires Core(s) && Clean(s) == Some(t)
    ensures Core(t) && Grows(s, t)
  {
    CleanedIsOver(s);
    CleanedIsForked(s);
    hide Core, Grows, SignalRunner, SignalHolder, CommandOver;
    var f, bare := s.dir.value, s.(dir := None);
    DirMade(s);
    Removing(s, bare);
    var u := if f.runnerPid.Some? then SignalRunner(bare) else bare;
    if f.runnerPid.Some? {
      RunnerDies(bare, u);
      GrowsOn(s, bare, u);
    }
    if f.holderPid.Some? {
      HolderDies(u, t);
      GrowsOn(s, u, t);
    }
  }

  lemma Stamping(s: Sys, t: Sys)
    requires Core(s) && (s.dir.Some? ==> s.log.runnerSignalled && s.command.Dead() && Soft(s.dir.value.status))
    requires t == SetStatus(s, ExitedKilled)
    ensures Core(t) && Grows(s, t)
  {
  }
}
