/** The invariant over whole runs: the launching rxd, its processes and any number of
    clients, interleaved in any way. */
module LifecycleRuns {
  import opened Common
  import opened Kernel
  import opened ProcessState
  import opened Lifecycle
  import opened LifecycleInvariant
  import opened LifecycleKeeps

  // ---- Clients rely on what no step takes back -------------------------------

  lemma ResolverStays(s: Sys, t: Sys, r: Resolver)
    requires Core(s) && Core(t) && Grows(s, t) && ResolverOk(s, r)
    ensures ResolverOk(t, r)
  {
  }

  /** One step of a resolver, whoever runs it. */
  lemma ResolverMoves(s: Sys, r: Resolver, t: Sys, r': Resolver)
    requires Core(s) && ResolverOk(s, r) && ResolverStep(s, r) == (t, r')
    ensures Core(t) && Grows(s, t) && ResolverOk(t, r')
  {
    if r.Heal? {
      Healing(s, t);
    }
  }

  /** What a `kill` under way may rely on. */
  predicate KillerOk(s: Sys, k: Killer) {
    && s.log.started
    && match k
       case KillReadStatus => true
       case KillReadRunner => s.dir.Some? ==> s.log.startedWithPid
       case KillReadPid(runner) => s.dir.Some? ==> s.log.startedWithPid && runner == Some(Runner)
       case KillTerm(runner, pid) =>
         s.dir.Some? ==> s.log.startedWithPid && runner == Some(Runner) && pid == Some(Command)
       case KillCheck(runner, pid) =>
         s.dir.Some? ==> && runner == Some(Runner) && pid == Some(Command) && s.runner.Dead()
                         && (s.command.Dead() || s.commandPc.Program?)
       case KillForce(runner, pid) =>
         s.dir.Some? ==> runner == Some(Runner) && s.runner.Dead() && (s.command.Dead() || s.commandPc.Program?)
       case KillReread => s.dir.Some? ==> s.runner.Dead() && s.command.Dead()
       case KillStamp =>
         s.dir.Some? ==> s.runner.Dead() && s.command.Dead() && s.log.runnerSignalled && Soft(s.dir.value.status)
       case Answered(killed) =>
         killed && s.dir.Some? ==> && s.command.Dead()
                                   && s.dir.value.status.Some? && s.dir.value.status != Some(Running)
  }

  lemma KillerStays(s: Sys, t: Sys, k: Killer)
    requires Core(s) && Core(t) && Grows(s, t) && KillerOk(s, k)
    ensures KillerOk(t, k)
  {
  }

  /** A signal to the runner and the holder, and one to the command after it. */
  lemma SignalsKeep(s: Sys, sig: int, v: Sys, w: Sys)
    requires Core(s) && s.log.started && v == SignalHolder(SignalRunner(s)) && w == SignalCommand(v, sig)
    ensures Core(v) && Grows(s, v) && Core(w) && Grows(s, w)
  {
    StartedDir(s);
    hide Core, Grows, SignalRunner, SignalHolder, SignalCommand;
    var u := SignalRunner(s);
    RunnerDies(s, u);
    HolderDies(u, v);
    GrowsOn(s, u, v);
    CommandDies(v, sig, w);
    GrowsOn(s, v, w);
  }

  /** SIGTERM or SIGKILL to whatever `kill` found recorded. */
  lemma TermKeeps(s: Sys, runner: Option<Proc>, pid: Option<Proc>, survives: bool, t: Sys)
    requires Core(s) && s.log.started && t == SendTerm(s, runner, pid, survives).0
    ensures Core(t) && Grows(s, t)
  {
    hide Core, Grows, SignalRunner, SignalHolder, SignalCommand;
    var v := SignalHolder(SignalRunner(s));
    SignalsKeep(s, SIGTERM, v, SignalCommand(v, SIGTERM));
    CommandDies(s, SIGTERM, SignalCommand(s, SIGTERM));
    GrowsSame(s);
  }

  lemma ForceKeeps(s: Sys, runner: Option<Proc>, t: Sys)
    requires Core(s) && s.log.started
    requires t == if runner.Some? then KillGroup(s) else SignalCommand(s, SIGKILL)
    ensures Core(t) && Grows(s, t)
  {
    hide Core, Grows, SignalRunner, SignalHolder, SignalCommand;
    var v := SignalHolder(SignalRunner(s));
    SignalsKeep(s, SIGKILL, v, SignalCommand(v, SIGKILL));
    CommandDies(s, SIGKILL, SignalCommand(s, SIGKILL));
  }

  lemma GrowsSame(s: Sys)
    ensures Grows(s, s)
  {
  }

  /** Signals change neither the launcher nor the directory. */
  lemma StartedDir(s: Sys)
    requires Core(s) && s.log.started
    ensures !s.launcher.MakeDir?
    ensures forall u: Sys :: SignalRunner(u).launcher == u.launcher && SignalHolder(u).launcher == u.launcher
  {
  }

  lemma AllBorn(s: Sys)
    requires Core(s)
    ensures s.log.startedWithPid ==> !s.runner.Unborn? && !s.command.Unborn?
    ensures s.commandPc.Program? ==> !s.command.Unborn?
  {
  }

  /** After SIGTERM to the group only a running program can be alive, and no sign of the
      group means there is none. */
  lemma TermEffect(s: Sys, survives: bool)
    requires !s.runner.Unborn? && !s.command.Unborn?
    ensures var (t, sent) := SendTerm(s, Some(Runner), Some(Command), survives);
      t.runner.Dead() && (if sent then t.command.Dead() || t.commandPc.Program? else t.command.Dead())
  {
  }

  lemma ForceEffect(s: Sys)
    requires s.runner.Dead() && !s.command.Unborn?
    ensures KillGroup(s).runner.Dead() && KillGroup(s).command.Dead()
  {
  }

  lemma KillerMoves(s: Sys, k: Killer, survives: bool, t: Sys, k': Killer)
    requires Core(s) && KillerOk(s, k) && KillerStep(s, k, survives) == (t, k')
    ensures Core(t) && Grows(s, t)
  {
    match k
    case KillTerm(runner, pid) => TermKeeps(s, runner, pid, survives, t);
    case KillForce(runner, pid) => ForceKeeps(s, runner, t);
    case KillStamp => Stamping(s, t);
    case _ => GrowsSame(s);
  }

  lemma KillerLearns(s: Sys, k: Killer, survives: bool, t: Sys, k': Killer)
    requires Core(s) && KillerOk(s, k) && KillerStep(s, k, survives) == (t, k')
    ensures KillerOk(t, k')
  {
    KillerMoves(s, k, survives, t, k');
    AllBorn(s);
    match k
    case KillTerm(runner, pid) =>
      if s.dir.Some? {
        TermEffect(s, survives);
      }
      hide Core;
    case KillForce(runner, pid) =>
      if s.dir.Some? {
        ForceEffect(s);
      }
      hide Core;
    case _ =>
  }

  // ---- Every step ------------------------------------------------------------

  lemma RunnerKeeps(s: Sys, fails: bool, t: Sys)
    requires Core(s) && RunnerStep(s, fails) == Some(t)
    ensures Core(t) && Grows(s, t)
  {
    hide Core, Grows, RunnerStep;
    match s.runnerPc
    case OpenFifo => RunnerOpenFifo(s, fails, t);
    case OpenOutputs => RunnerOpenOutputs(s, fails, t);
    case ForkHolder => RunnerForkHolder(s, fails, t);
    case ForkCommand => RunnerForkCommand(s, fails, t);
    case CloseFifo => RunnerCloseFifo(s, fails, t);
    case CloseReady => RunnerCloseReady(s, fails, t);
    case RecordRunner => RunnerRecord(s, fails, t);
    case RecordHolder => RunnerRecordHolder(s, fails, t);
    case ReportPid => RunnerReportPid(s, fails, t);
    case CloseSync => RunnerCloseSync(s, fails, t);
    case Reap => RunnerReap(s, fails, t);
    case RecordOutcome => RunnerRecordOutcome(s, fails, t);
    case StopHolder => RunnerStopHolder(s, fails, t);
    case RunnerExit => RunnerExits(s, fails, t);
    case FailStatus => RunnerFailStatus(s, fails, t);
    case FailReport => RunnerFailReport(s, fails, t);
    case FailStopHolder => RunnerFailStopHolder(s, fails, t);
    case FailExit => RunnerFailExit(s, fails, t);
  }

  lemma HolderKeeps(s: Sys, t: Sys)
    requires Core(s) && HolderStep(s) == Some(t)
    ensures Core(t) && Grows(s, t)
  {
    if s.holderPc.HolderCloseSync? {
      HolderSync(s, t);
    } else {
      HolderReady(s, t);
    }
  }

  lemma CommandKeeps(s: Sys, c: CommandChoice, t: Sys)
    requires Core(s) && CommandStep(s, c) == Some(t)
    ensures Core(t) && Grows(s, t)
  {
    hide Core, Grows;
    match s.commandPc
    case CommandCloseSync => LifecycleKeeps.CommandCloseSync(s, c, t);
    case CommandCloseFifo => LifecycleKeeps.CommandCloseFifo(s, c, t);
    case OpenStdin => if c.Fail? { CommandOpenStdinFails(s, c, t); } else { CommandOpenStdinWorks(s, c, t); }
    case SignalReady => CommandSignalReady(s, c, t);
    case CommandCloseReady => LifecycleKeeps.CommandCloseReady(s, c, t);
    case Enter => CommandEnter(s, c, t);
    case Exec => if c.Fail? { CommandExecFails(s, c, t); } else { CommandExecWorks(s, c, t); }
    case RecordErrno => CommandRecordErrno(s, c, t);
    case CommandFailStatus => LifecycleKeeps.CommandFailStatus(s, c, t);
    case Exit127 => CommandExit127(s, c, t);
    case Program =>
      if c.Take? {
        ProgramTake(s, c, t);
      } else if c.CloseStdin? {
        ProgramCloseStdin(s, c, t);
      } else {
        ProgramQuit(s, c, t);
      }
  }

  lemma StartKeeps(s: Sys, c: LauncherChoice, t: Sys)
    requires Core(s) && BeforeStarted(s.launcher) && StartStep(s, c) == Some(t)
    ensures Core(t) && Grows(s, t)
  {
    hide Core, Grows, StartStep;
    match s.launcher
    case MakeDir => LauncherMakeDir(s, c, t);
    case WriteRunning => LauncherWriteRunning(s, c, t);
    case Fork => LauncherFork(s, c, t);
    case CloseSyncWrite => LauncherCloseSyncWrite(s, c, t);
    case CloseReadyWrite => LauncherCloseReadyWrite(s, c, t);
    case ReadSync => LauncherReadSync(s, c, t);
    case RecordPid => LauncherRecordPid(s, c, t);
    case ReadReady => LauncherReadReady(s, c, t);
    case Return(_) => LauncherReturn(s, c, t);
  }

  lemma LauncherKeeps(s: Sys, c: LauncherChoice, t: Sys)
    requires Inv(s) && LauncherStep(s, c) == Some(t)
    ensures Core(t) && Grows(s, t)
  {
    hide Core, Grows, StartStep, FeedStep, StdinStep, PollStep, OwnResolver;
    if BeforeStarted(s.launcher) {
      StartKeeps(s, c, t);
    } else {
      match s.launcher
      case Feed => LauncherFeed(s, c, t);
      case CloseResolve(_) => LauncherResolve(s, c, t);
      case Poll(_) => LauncherResolve(s, c, t);
      case Started => LauncherStarted(s, t);
      case FeedOpen => LauncherFeedOpen(s, t);
      case FeedClose(_) => LauncherFeedClose(s, t);
      case CloseCheck => LauncherCloseCheck(s, t);
      case CloseKill => LauncherCloseKill(s, t);
      case _ => NoStep(s);
    }
  }

  lemma NoStep(s: Sys)
    requires s.launcher.Finished? || s.launcher.TimedOut? || s.launcher.Gone?
    ensures StdinStep(s) == None
  {
  }

  lemma StepKeepsCore(s: Sys, a: Action, t: Sys)
    requires Inv(s) && Step(s, a) == Some(t)
    ensures Core(t) && Grows(s, t)
  {
    hide Core, Grows, OwnResolver, RunnerStep, HolderStep, CommandStep, LauncherStep, LauncherVanish, Observe, Clean,
      SignalRunner, SignalHolder, SignalCommand;
    match a
    case RunnerMoves(fails) => RunnerKeeps(s, fails, t);
    case HolderMoves => HolderKeeps(s, t);
    case CommandMoves(c) => CommandKeeps(s, c, t);
    case LauncherMoves(l) => LauncherKeeps(s, l, t);
    case LauncherVanishes => Vanish(s, t);
    case HolderKilled => HolderDies(s, t);
    case CommandKilled(sig) => CommandDies(s, sig, t);
    case RunnerKilled => RunnerDies(s, t);
    case RunnerReaped => RunnerReapedKeeps(s, a, t);
    case HolderReaped => HolderReapedKeeps(s, a, t);
    case CommandReaped => CommandReapedKeeps(s, a, t);
    case OtherOpens => OthersKeep(s, a, t);
    case OtherWrites(_) => OthersKeep(s, a, t);
    case OtherCloses => OthersKeep(s, a, t);
    case Observed => Observing(s, t);
    case Cleaned => Cleaning(s, t);
  }

  lemma OnlyLauncherMovesIt(s: Sys, a: Action, t: Sys)
    requires Step(s, a) == Some(t) && !a.LauncherMoves? && !a.LauncherVanishes?
    ensures t.launcher == s.launcher
  {
  }

  lemma OwnResolverMoves(s: Sys, c: LauncherChoice, t: Sys)
    requires Core(s) && OwnResolver(s) && PollStep(s, c) == Some(t) && Core(t)
    ensures OwnResolver(t)
  {
    hide Core, Grows;
    var r := if s.launcher.Poll? then s.launcher.r else s.launcher.r;
    if r.Resolved? {
      Relaunched(s, t, r);
    } else {
      var (u, r') := ResolverStep(s, r);
      ResolverMoves(s, r, u, r');
      Relaunched(u, t, r');
    }
  }

  /** What a resolver relies on does not include where the launcher is, once it is past its start. */
  lemma Relaunched(s: Sys, t: Sys, r: Resolver)
    requires ResolverOk(s, r) && t == s.(launcher := t.launcher)
    requires !s.launcher.MakeDir? && !s.launcher.Gone? && !t.launcher.MakeDir?
    ensures ResolverOk(t, r)
  {
  }

  lemma StdinKeepsResolver(s: Sys, t: Sys)
    requires !BeforeStarted(s.launcher) && StdinStep(s) == Some(t)
    ensures OwnResolver(t)
  {
  }

  lemma OwnResolverKeeps(s: Sys, a: Action, t: Sys)
    requires Inv(s) && Step(s, a) == Some(t) && Core(t) && Grows(s, t)
    ensures OwnResolver(t)
  {
    hide Core, Grows, StdinStep, PollStep, RunnerStep, HolderStep, CommandStep;
    hide Observe, Clean, SignalRunner, SignalHolder, SignalCommand;
    if a.LauncherMoves? {
      if BeforeStarted(s.launcher) || s.launcher.Feed? {
      } else if s.launcher.CloseResolve? || s.launcher.Poll? {
        OwnResolverMoves(s, a.l, t);
      } else {
        StdinKeepsResolver(s, t);
      }
    } else if !a.LauncherVanishes? {
      OnlyLauncherMovesIt(s, a, t);
      hide Step, ResolverOk;
      match s.launcher
      case CloseResolve(r) => ResolverStays(s, t, r);
      case Poll(r) => ResolverStays(s, t, r);
      case Finished(st) => ResolverStays(s, t, Resolved(Some(st)));
      case _ =>
    }
  }

  lemma StepKeeps(s: Sys, a: Action, t: Sys)
    requires Inv(s) && Step(s, a) == Some(t)
    ensures Inv(t) && Grows(s, t)
  {
    StepKeepsCore(s, a, t);
    OwnResolverKeeps(s, a, t);
  }

  // ---- Whole runs ------------------------------------------------------------

  predicate ClientOk(s: Sys, c: Client) {
    match c
    case Resolving(r) => ResolverOk(s, r)
    case Killing(k) => KillerOk(s, k)
  }

  predicate WorldInv(w: World) {
    Inv(w.sys) && forall i :: 0 <= i < |w.clients| ==> ClientOk(w.sys, w.clients[i])
  }

  lemma ClientsStay(s: Sys, t: Sys, c: Client)
    requires Core(s) && Core(t) && Grows(s, t) && ClientOk(s, c)
    ensures ClientOk(t, c)
  {
    match c
    case Resolving(r) => ResolverStays(s, t, r);
    case Killing(k) => KillerStays(s, t, k);
  }

  /** A client's step as the system sees it. */
  lemma ClientKeeps(s: Sys, c: Client, survives: bool, t: Sys, c': Client)
    requires Inv(s) && ClientOk(s, c)
    requires match c
             case Resolving(r) => var (u, r') := ResolverStep(s, r); t == u && c' == Resolving(r')
             case Killing(k) => var (u, k') := KillerStep(s, k, survives); t == u && c' == Killing(k')
    ensures Inv(t) && Grows(s, t) && ClientOk(t, c')
  {
    hide Core, Grows, ResolverOk, KillerOk;
    match c {
      case Resolving(r) => ResolverMoves(s, r, t, c'.r);
      case Killing(k) =>
        KillerMoves(s, k, survives, t, c'.k);
        KillerLearns(s, k, survives, t, c'.k);
    }
    ClientLeavesLauncher(s, c, survives, t, c');
    match s.launcher
    case CloseResolve(r) => ResolverStays(s, t, r);
    case Poll(r) => ResolverStays(s, t, r);
    case Finished(st) => ResolverStays(s, t, Resolved(Some(st)));
    case _ =>
  }

  lemma ClientLeavesLauncher(s: Sys, c: Client, survives: bool, t: Sys, c': Client)
    requires match c
             case Resolving(r) => t == ResolverStep(s, r).0
             case Killing(k) => t == KillerStep(s, k, survives).0
    ensures t.launcher == s.launcher
  {
  }

  lemma WorldKeeps(w: World, m: Move, w': World)
    requires WorldInv(w) && WorldStep(w, m) == Some(w')
    ensures WorldInv(w') && Grows(w.sys, w'.sys)
  {
    hide Inv, Grows, ClientOk, Step, ResolverStep, KillerStep;
    var s, t := w.sys, w'.sys;
    match m {
      case SystemMove(a) => StepKeeps(s, a, t);
      case NewResolver => NewClients(s);
      case NewKiller => NewClients(s);
      case ClientMove(i, survives) => ClientKeeps(s, w.clients[i], survives, t, w'.clients[i]);
    }
    CoreOf(s);
    CoreOf(t);
    forall i | 0 <= i < |w'.clients|
      ensures ClientOk(t, w'.clients[i])
    {
      if i < |w.clients| && w'.clients[i] == w.clients[i] {
        ClientsStay(s, t, w.clients[i]);
      }
    }
  }

  lemma CoreOf(s: Sys)
    ensures Inv(s) ==> Core(s)
  {
  }

  lemma NewClients(s: Sys)
    ensures Grows(s, s) && ClientOk(s, Resolving(ReadStatus))
    ensures s.log.started ==> ClientOk(s, Killing(KillReadStatus))
  {
  }

  lemma InitialInv(job: Job)
    ensures WorldInv(World(Initial(job), []))
  {
  }

  lemma {:induction false} RunKeeps(w: World, moves: seq<Move>, w': World)
    requires WorldInv(w) && Run(w, moves) == Some(w')
    ensures WorldInv(w')
    decreases |moves|
  {
    if moves != [] {
      var next := WorldStep(w, moves[0]).value;
      hide WorldInv, WorldStep;
      WorldKeeps(w, moves[0], next);
      RunKeeps(next, moves[1..], w');
    }
  }

  /** In every interleaving of the launcher, its processes and any clients. */
  lemma ReachableInv(w: World)
    requires Reachable(w)
    ensures WorldInv(w)
  {
    var job: Job, moves: seq<Move> :| Run(World(Initial(job), []), moves) == Some(w);
    InitialInv(job);
    RunKeeps(World(Initial(job), []), moves, w);
  }
}
