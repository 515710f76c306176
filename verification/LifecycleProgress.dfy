/** How far runs of the lifecycle protocol can go: `start` returns on every schedule, and the
    overwriting race is open exactly where its runner still has something to record. */
module LifecycleProgress {
  import opened Common
  import opened Kernel
  import opened ProcessState
  import opened Lifecycle
  import opened LifecycleInvariant
  import opened LifecycleRuns
  import opened LifecycleTheorems

  // ---- The handshake ends ----------------------------------------------------

  /** Processes only died, and the launcher did not go back. */
  predicate OnlyDeaths(s: Sys, t: Sys) {
    && t.runnerPc == s.runnerPc && t.holderPc == s.holderPc && t.commandPc == s.commandPc
    && (t.launcher == s.launcher || !BeforeStarted(t.launcher))
    && (t.runner == s.runner || t.runner.Dead())
    && (t.holder == s.holder || t.holder.Dead())
    && (t.command == s.command || t.command.Dead())
  }

  lemma DeathsShrink(s: Sys, t: Sys)
    requires OnlyDeaths(s, t)
    ensures Work(t) <= Work(s)
  {
  }

  lemma OtherStepsOnlyKill(s: Sys, a: Action, t: Sys)
    requires Step(s, a) == Some(t) && !Handshake(s, a) && !a.CommandMoves?
    ensures OnlyDeaths(s, t)
  {
  }

  lemma ProgramOnlyDies(s: Sys, c: CommandChoice, t: Sys)
    requires CommandStep(s, c) == Some(t) && s.commandPc.Program?
    ensures OnlyDeaths(s, t)
  {
  }

  lemma FeedOnlyWrites(s: Sys, l: LauncherChoice, t: Sys)
    requires FeedStep(s, l) == Some(t)
    ensures OnlyDeaths(s, t)
  {
  }

  lemma StdinOnlyKills(s: Sys, t: Sys)
    requires StdinStep(s) == Some(t)
    ensures OnlyDeaths(s, t)
  {
  }

  lemma PollOnlyWrites(s: Sys, l: LauncherChoice, t: Sys)
    requires PollStep(s, l) == Some(t)
    ensures OnlyDeaths(s, t)
  {
  }

  lemma LaterLauncherOnlyKills(s: Sys, l: LauncherChoice, t: Sys)
    requires LauncherStep(s, l) == Some(t) && !BeforeStarted(s.launcher)
    ensures OnlyDeaths(s, t)
  {
    hide OnlyDeaths, FeedStep, StdinStep, PollStep;
    if s.launcher.CloseResolve? || s.launcher.Poll? {
      PollOnlyWrites(s, l, t);
    } else if s.launcher.Feed? {
      FeedOnlyWrites(s, l, t);
    } else {
      StdinOnlyKills(s, t);
    }
  }

  lemma SignalOnlyKills(s: Sys, sig: int)
    ensures OnlyDeaths(s, SignalRunner(s)) && OnlyDeaths(s, SignalHolder(s)) && OnlyDeaths(s, SignalCommand(s, sig))
    ensures OnlyDeaths(s, s)
  {
  }

  lemma DeathsAddUp(s: Sys, t: Sys, u: Sys)
    requires OnlyDeaths(s, t) && OnlyDeaths(t, u)
    ensures OnlyDeaths(s, u)
  {
  }

  lemma GroupOnlyKills(s: Sys, sig: int)
    ensures var t := SignalHolder(SignalRunner(s)); OnlyDeaths(s, t) && OnlyDeaths(s, SignalCommand(t, sig))
  {
    var r := SignalRunner(s);
    var t := SignalHolder(r);
    SignalOnlyKills(s, sig);
    SignalOnlyKills(r, sig);
    SignalOnlyKills(t, sig);
    hide OnlyDeaths, SignalRunner, SignalHolder, SignalCommand;
    DeathsAddUp(s, r, t);
    DeathsAddUp(s, t, SignalCommand(t, sig));
  }

  lemma TermOnlyKills(s: Sys, runner: Option<Proc>, pid: Option<Proc>, survives: bool)
    ensures OnlyDeaths(s, SendTerm(s, runner, pid, survives).0)
  {
    GroupOnlyKills(s, SIGTERM);
    SignalOnlyKills(s, SIGTERM);
    hide OnlyDeaths, SignalRunner, SignalHolder, SignalCommand;
  }

  lemma ForceOnlyKills(s: Sys)
    ensures OnlyDeaths(s, KillGroup(s)) && OnlyDeaths(s, SignalCommand(s, SIGKILL))
  {
    GroupOnlyKills(s, SIGKILL);
    SignalOnlyKills(s, SIGKILL);
    hide OnlyDeaths, SignalRunner, SignalHolder, SignalCommand;
  }

  lemma KillerOnlyKills(s: Sys, k: Killer, survives: bool)
    ensures OnlyDeaths(s, KillerStep(s, k, survives).0)
  {
    if k.KillTerm? {
      TermOnlyKills(s, k.runner, k.pid, survives);
    }
    ForceOnlyKills(s);
    hide SendTerm, KillGroup, SignalCommand;
  }

  lemma ResolverOnlyWrites(s: Sys, r: Resolver)
    ensures OnlyDeaths(s, ResolverStep(s, r).0)
  {
  }

  lemma ClientsOnlyKill(w: World, i: nat, survives: bool, w': World)
    requires WorldStep(w, ClientMove(i, survives)) == Some(w')
    ensures OnlyDeaths(w.sys, w'.sys)
  {
    match w.clients[i] {
      case Resolving(r) => ResolverOnlyWrites(w.sys, r);
      case Killing(k) => KillerOnlyKills(w.sys, k, survives);
    }
    hide OnlyDeaths, ResolverStep, KillerStep;
  }

  /** A step of the handshake before `start` has returned. */
  predicate Advances(s: Sys, m: Move) {
    m.SystemMove? && Handshake(s, m.a) && BeforeStarted(s.launcher)
  }

  lemma StepWork(s: Sys, a: Action, t: Sys)
    requires Births(s) && Step(s, a) == Some(t)
    ensures Work(t) <= Work(s)
    ensures Handshake(s, a) && BeforeStarted(s.launcher) ==> Work(t) < Work(s)
  {
    hide RunnerStep, HolderStep, CommandStep, LauncherStep, StartStep, Births;
    hide RunnerLeft, HolderLeft, CommandLeft, LauncherLeft;
    match a
    case RunnerMoves(fails) =>
      RunnerAdvances(s, fails, t);
      RunnerShrinks(s, fails, t);
    case HolderMoves => HolderShrinks(s, t);
    case CommandMoves(c) =>
      if s.commandPc.Program? {
        ProgramOnlyDies(s, c, t);
        DeathsShrink(s, t);
      } else {
        CommandShrinks(s, c, t);
      }
    case LauncherMoves(l) =>
      if BeforeStarted(s.launcher) {
        LauncherIsStarting(s, l);
        StartShrinks(s, l, t);
      } else {
        LaterLauncherOnlyKills(s, l, t);
        DeathsShrink(s, t);
      }
    case _ =>
      OtherStepsOnlyKill(s, a, t);
      DeathsShrink(s, t);
  }

  lemma LauncherIsStarting(s: Sys, l: LauncherChoice)
    requires BeforeStarted(s.launcher)
    ensures LauncherStep(s, l) == StartStep(s, l)
  {
  }

  /** No move at all gives the handshake more steps to go. */
  lemma MoveWork(w: World, m: Move, w': World)
    requires WorldInv(w) && WorldStep(w, m) == Some(w')
    ensures Work(w'.sys) <= Work(w.sys) && (Advances(w.sys, m) ==> Work(w'.sys) < Work(w.sys))
  {
    BirthsOf(w.sys);
    match m
    case SystemMove(a) =>
      hide Step, Work, Births, Handshake;
      StepWork(w.sys, a, w'.sys);
    case ClientMove(i, survives) =>
      ClientsOnlyKill(w, i, survives, w');
      DeathsShrink(w.sys, w'.sys);
    case _ =>
  }

  /** The steps of the handshake in a run. */
  function HandshakeSteps(w: World, moves: seq<Move>): nat
    requires Run(w, moves).Some?
    decreases |moves|
  {
    if moves == [] then 0
    else (if Advances(w.sys, moves[0]) then 1 else 0) + HandshakeSteps(WorldStep(w, moves[0]).value, moves[1..])
  }

  lemma {:induction false} StepsFitWork(w: World, moves: seq<Move>)
    requires WorldInv(w) && Run(w, moves).Some?
    ensures HandshakeSteps(w, moves) <= Work(w.sys)
    decreases |moves|
  {
    if moves != [] {
      var next := WorldStep(w, moves[0]).value;
      MoveWork(w, moves[0], next);
      WorldKeeps(w, moves[0], next);
      hide WorldInv, WorldStep, Work, Advances;
      StepsFitWork(next, moves[1..]);
    }
  }

  /** However the processes and clients are scheduled, `start` has returned, or its rxd is gone,
      after at most 42 steps of the handshake. */
  lemma HandshakeBounded(job: Job, moves: seq<Move>)
    requires Run(World(Initial(job), []), moves).Some?
    ensures HandshakeSteps(World(Initial(job), []), moves) <= 42
  {
    var w := World(Initial(job), []);
    InitialInv(job);
    StepsFitWork(w, moves);
    hide Run, HandshakeSteps;
    assert Work(w.sys) == 42;
  }

  // ---- Where the overwriting race is open ------------------------------------

  /** The command has an outcome, nobody signalled the runner, and the status may yet be lost. */
  predicate Known(s: Sys) {
    s.dir.Some? && !s.log.runnerSignalled && s.outcome.Some? && s.outcome != Some(ExitedUnknown)
  }

  predicate TruthLost(s: Sys) {
    Known(s) && s.log.stamped && Status(s) == Some(ExitedUnknown)
  }

  /** In some continuation a resolver stamps exited(unknown) over how the command ended. */
  ghost predicate CanStamp(w: World) {
    exists moves: seq<Move> :: Run(w, moves).Some? && TruthLost(Run(w, moves).value.sys)
  }

  lemma CanStampBefore(w: World, m: Move, next: World)
    requires WorldStep(w, m) == Some(next) && CanStamp(next)
    ensures CanStamp(w)
  {
    var moves: seq<Move> :| Run(next, moves).Some? && TruthLost(Run(next, moves).value.sys);
    var all := [m] + moves;
    assert all[0] == m && all[1..] == moves;
    assert Run(w, all) == Run(next, moves);
  }

  // The last steps of the resolver, from the last to the first.

  lemma StampFromHeal(w: World, i: nat)
    requires i < |w.clients| && w.clients[i] == Resolving(Heal) && Known(w.sys)
    ensures CanStamp(w)
  {
    var next := WorldStep(w, ClientMove(i, false)).value;
    assert Run(next, []).Some? && TruthLost(next.sys);
    CanStampBefore(w, ClientMove(i, false), next);
  }

  lemma StampFromCheckRunner(w: World, i: nat)
    requires i < |w.clients| && w.clients[i] == Resolving(CheckRunner(Some(Runner)))
    requires Known(w.sys) && w.sys.runner.Reaped?
    ensures CanStamp(w)
  {
    var next := WorldStep(w, ClientMove(i, false)).value;
    StampFromHeal(next, i);
    CanStampBefore(w, ClientMove(i, false), next);
  }

  lemma StampFromCheckCommand(w: World, i: nat, pid: Option<Proc>)
    requires i < |w.clients| && w.clients[i] == Resolving(CheckCommand(pid, Some(Runner)))
    requires Known(w.sys) && w.sys.runner.Reaped? && w.sys.command.Reaped? && (pid.Some? ==> pid == Some(Command))
    ensures CanStamp(w)
  {
    var next := WorldStep(w, ClientMove(i, false)).value;
    StampFromCheckRunner(next, i);
    CanStampBefore(w, ClientMove(i, false), next);
  }

  lemma StampFromReadPid(w: World, i: nat)
    requires i < |w.clients| && w.clients[i] == Resolving(ReadPid)
    requires Known(w.sys) && w.sys.runner.Reaped? && w.sys.command.Reaped?
    requires var f := w.sys.dir.value; f.runnerPid == Some(Runner) && (f.pid.Some? ==> f.pid == Some(Command))
    ensures CanStamp(w)
  {
    var middle := WorldStep(w, ClientMove(i, false)).value;
    var next := WorldStep(middle, ClientMove(i, false)).value;
    StampFromCheckCommand(next, i, w.sys.dir.value.pid);
    CanStampBefore(middle, ClientMove(i, false), next);
    CanStampBefore(w, ClientMove(i, false), middle);
  }

  // The runner on its way, past a resolver that has read `running`.

  predicate Passing(s: Sys) {
    s.launcher.Gone? && s.dir.Some? && s.runner.Live? && !s.runnerPc.Failing() && !s.log.runnerSignalled
  }

  predicate Reading(w: World, i: nat) {
    WorldInv(w) && i < |w.clients| && w.clients[i] == Resolving(ReadPid) && Passing(w.sys)
  }

  lemma RunnerGoesOn(s: Sys)
    requires Passing(s) && !s.runnerPc.RunnerExit? && (s.runnerPc.Reap? ==> s.command.Zombie?)
    ensures var t := RunnerStep(s, false);
      t.Some? && Passing(t.value) && s.runnerPc.Progress() < t.value.runnerPc.Progress() <= 13
  {
  }

  lemma CommandEnds(s: Sys)
    requires Passing(s) && s.command.Live?
    ensures var t := Step(s, CommandKilled(SIGKILL));
      t.Some? && Passing(t.value) && t.value.runnerPc == s.runnerPc && !t.value.command.Live?
  {
  }

  lemma RunnerLeaves(w: World, i: nat)
    requires Reading(w, i) && w.sys.runnerPc.RunnerExit?
    ensures CanStamp(w)
  {
    var exited := WorldStep(w, SystemMove(RunnerMoves(false))).value;
    var reaped := WorldStep(exited, SystemMove(RunnerReaped)).value;
    RecordsAtExit(w.sys);
    assert reaped.clients == w.clients && reaped.sys.dir == w.sys.dir && reaped.sys.command == w.sys.command;
    assert Known(reaped.sys);
    hide WorldInv;
    StampFromReadPid(reaped, i);
    CanStampBefore(exited, SystemMove(RunnerReaped), reaped);
    CanStampBefore(w, SystemMove(RunnerMoves(false)), exited);
  }

  lemma RecordsAtExit(s: Sys)
    requires Inv(s) && s.runnerPc.RunnerExit? && s.dir.Some?
    ensures s.command.Reaped? && s.outcome.Some? && s.outcome != Some(ExitedUnknown)
    ensures s.dir.value.runnerPid == Some(Runner)
    ensures s.dir.value.pid.Some? ==> s.dir.value.pid == Some(Command)
  {
  }

  lemma AtReap(s: Sys)
    requires Inv(s) && s.runner.Live? && s.runnerPc.Reap?
    ensures s.command.Live? || s.command.Zombie?
  {
  }

  lemma {:induction false} StampFromPassing(w: World, i: nat)
    requires Reading(w, i)
    ensures CanStamp(w)
    decreases 13 - w.sys.runnerPc.Progress(), w.sys.command.Live?
  {
    if w.sys.runnerPc.RunnerExit? {
      RunnerLeaves(w, i);
      return;
    }
    if w.sys.runnerPc.Reap? {
      AtReap(w.sys);
    }
    var a := if w.sys.runnerPc.Reap? && w.sys.command.Live? then CommandKilled(SIGKILL) else RunnerMoves(false);
    if a.CommandKilled? {
      CommandEnds(w.sys);
    } else {
      RunnerGoesOn(w.sys);
    }
    var next := WorldStep(w, SystemMove(a)).value;
    WorldKeeps(w, SystemMove(a), next);
    hide WorldInv, RunnerStep, SignalCommand, CanStamp;
    StampFromPassing(next, i);
    CanStampBefore(w, SystemMove(a), next);
  }

  // From the start of a resolver, and of the launcher.

  predicate SaysRunning(s: Sys) {
    s.dir.Some? && Status(s) == Some(Running) && !s.log.runnerSignalled
  }

  lemma RunnerStillThere(s: Sys)
    requires Inv(s) && SaysRunning(s) && !s.runner.Unborn? && !s.runnerPc.Failing()
    ensures s.runner.Live?
  {
  }

  lemma StampFromGone(w: World)
    requires WorldInv(w) && SaysRunning(w.sys) && w.sys.launcher.Gone?
    requires !w.sys.runner.Unborn? && !w.sys.runnerPc.Failing()
    ensures CanStamp(w)
  {
    var i := |w.clients|;
    RunnerStillThere(w.sys);
    var asked := WorldStep(w, NewResolver).value;
    WorldKeeps(w, NewResolver, asked);
    var reading := WorldStep(asked, ClientMove(i, false)).value;
    WorldKeeps(asked, ClientMove(i, false), reading);
    assert reading.clients[i] == Resolving(ReadPid) && reading.sys == w.sys;
    hide WorldInv, CanStamp;
    StampFromPassing(reading, i);
    CanStampBefore(asked, ClientMove(i, false), reading);
    CanStampBefore(w, NewResolver, asked);
  }

  lemma VanishingLeaves(s: Sys)
    ensures var t := LauncherVanish(s);
      && t.launcher.Gone? && t.runner == s.runner && t.runnerPc == s.runnerPc && t.dir == s.dir && t.log == s.log
  {
  }

  lemma StampFromForked(w: World)
    requires WorldInv(w) && SaysRunning(w.sys) && !w.sys.runner.Unborn? && !w.sys.runnerPc.Failing()
    ensures CanStamp(w)
  {
    var m := SystemMove(LauncherVanishes);
    var next := WorldStep(w, m).value;
    VanishingLeaves(w.sys);
    WorldKeeps(w, m, next);
    hide WorldInv, CanStamp, LauncherVanish;
    StampFromGone(next);
    CanStampBefore(w, m, next);
  }

  lemma Unforked(s: Sys)
    requires Inv(s) && SaysRunning(s) && s.runner.Unborn? && !s.launcher.Gone?
    ensures s.launcher.WriteRunning? || s.launcher.Fork?
    ensures !s.runnerPc.Failing()
  {
  }

  lemma {:induction false} StampFromUnforked(w: World)
    requires WorldInv(w) && SaysRunning(w.sys) && w.sys.runner.Unborn? && !w.sys.launcher.Gone?
    ensures CanStamp(w)
    decreases w.sys.launcher.WriteRunning?
  {
    var m := SystemMove(LauncherMoves(Proceed));
    Unforked(w.sys);
    var next := WorldStep(w, m).value;
    assert SaysRunning(next.sys) && next.sys.runnerPc == w.sys.runnerPc;
    WorldKeeps(w, m, next);
    var forks := w.sys.launcher.Fork?;
    assert if forks then next.sys.runner.Live? else next.sys.launcher.Fork? && next.sys.runner.Unborn?;
    hide WorldInv, CanStamp, WorldStep;
    if forks {
      StampFromForked(next);
    } else {
      StampFromUnforked(next);
    }
    CanStampBefore(w, m, next);
  }

  /** A runner that failed, or will never be. */
  predicate Hopeless(s: Sys) {
    s.runnerPc.Failing() || (s.runner.Unborn? && s.launcher.Gone?)
  }

  lemma HopelessUnstamped(s: Sys)
    requires Inv(s) && Hopeless(s)
    ensures !s.log.stamped
  {
  }

  lemma HopelessStays(s: Sys, t: Sys)
    requires Grows(s, t) && Hopeless(s)
    ensures Hopeless(t)
  {
  }

  lemma {:induction false} HopelessNeverStamps(w: World, moves: seq<Move>)
    requires WorldInv(w) && Hopeless(w.sys) && Run(w, moves).Some?
    ensures !Run(w, moves).value.sys.log.stamped
    decreases |moves|
  {
    HopelessUnstamped(w.sys);
    if moves != [] {
      var next := WorldStep(w, moves[0]).value;
      WorldKeeps(w, moves[0], next);
      HopelessStays(w.sys, next.sys);
      hide WorldInv, WorldStep, Hopeless;
      HopelessNeverStamps(next, moves[1..]);
    }
  }

  /** From a state that says running, with an unsignalled runner, some continuation overwrites
      the truth with exited(unknown) if and only if the runner has not failed and was, or can
      still be, forked. */
  lemma RaceOpenExactly(w: World)
    requires Reachable(w) && SaysRunning(w.sys)
    ensures CanStamp(w) <==> !w.sys.runnerPc.Failing() && !(w.sys.runner.Unborn? && w.sys.launcher.Gone?)
  {
    ReachableInv(w);
    if Hopeless(w.sys) {
      forall moves: seq<Move> | Run(w, moves).Some?
        ensures !Run(w, moves).value.sys.log.stamped
      {
        HopelessNeverStamps(w, moves);
      }
    } else if w.sys.runner.Unborn? {
      StampFromUnforked(w);
    } else {
      StampFromForked(w);
    }
  }
}
