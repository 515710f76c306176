/** A run in which a resolver of another rxd overwrites a true status. */
module LifecycleRace {
  import opened Common
  import opened Kernel
  import opened ProcessState
  import opened Lifecycle
  import opened LifecycleTheorems

  // ---- Runs in stretches -----------------------------------------------------

  lemma {:induction false} RunOn(w: World, first: seq<Move>, then_: seq<Move>)
    requires Run(w, first).Some?
    ensures Run(w, first + then_) == Run(Run(w, first).value, then_)
    decreases |first|
  {
    if first == [] {
      assert [] + then_ == then_;
    } else {
      assert (first + then_)[1..] == first[1..] + then_;
      hide WorldStep;
      RunOn(WorldStep(w, first[0]).value, first[1..], then_);
    }
  }

  /** One move further. */
  lemma Moved(w: World, m: Move) returns (w': World)
    requires Reachable(w) && WorldStep(w, m).Some?
    ensures Reachable(w') && WorldStep(w, m) == Some(w')
  {
    w' := WorldStep(w, m).value;
    var job: Job, before: seq<Move> :| Run(World(Initial(job), []), before) == Some(w);
    RunOn(World(Initial(job), []), before, [m]);
    assert Run(w, [m]) == Run(w', []);
    assert Run(World(Initial(job), []), before + [m]) == Some(w');
  }

  // ---- The run ---------------------------------------------------------------

  const JOB := Job(true, [], true)
  const START := World(Initial(JOB), [])
  const L := SystemMove(LauncherMoves(Proceed))
  const R := SystemMove(RunnerMoves(false))
  const C := SystemMove(CommandMoves(Go))
  const C0 := ClientMove(0, false)

  const HANDED := Copies(false, false, true, true)
  const LOG := Log(false, false, 0, false, false, false, None, 0, false)

  /** The runner is forked, and the launcher waits for it. */
  const FORKED := Sys(JOB, Some(Files(Some(Running), None, None, None, None)), ReadSync,
    Live, OpenFifo, Unborn, HolderCloseSync, Unborn, CommandCloseSync, None,
    Copies(false, true, false, false), Nothing, Copies(false, true, false, false), false, CLOSED, LOG)

  /** The runner has forked the other two. */
  const SPAWNED := FORKED.(runnerPc := CloseFifo, holder := Live, command := Live,
    syncW := Copies(false, true, true, true), readyW := Copies(false, true, true, true),
    fifo := CLOSED.(rw := Copies(false, true, true, true)))

  /** The runner has closed its ends and recorded the pids. */
  const NOTED := SPAWNED.(runnerPc := ReportPid,
    dir := Some(Files(Some(Running), None, Some(Runner), Some(Holder), None)),
    readyW := HANDED, fifo := CLOSED.(rw := HANDED))

  /** The runner has reported the command's pid and waits for it. */
  const REPORTED := NOTED.(runnerPc := Reap, syncW := HANDED, sync := Pid(Command))

  /** The grandchild has opened its stdin ... */
  const OPENED := REPORTED.(commandPc := SignalReady, syncW := Copies(false, false, true, false),
    fifo := CLOSED.(rw := Copies(false, false, true, false), everOpen := true, attached := true))

  /** ... and become the program. */
  const RUNNING := OPENED.(commandPc := Program, readyW := Copies(false, false, true, false), readyByte := true)

  /** `start` has returned. */
  const STARTED := RUNNING.(launcher := Started, log := LOG.(started := true, startedWithPid := true),
    dir := Some(Files(Some(Running), Some(Command), Some(Runner), Some(Holder), None)))

  /** The program has exited with 0, and the runner has recorded that ... */
  const RECORDED := STARTED.(launcher := Gone, runnerPc := StopHolder,
    command := Reaped, outcome := Some(Exited(0)), fifo := RUNNING.fifo.(attached := false),
    dir := Some(Files(Some(Exited(0)), Some(Command), Some(Runner), Some(Holder), None)))

  /** ... and is reaped itself. */
  const ENDED := RECORDED.(runner := Reaped, runnerPc := RunnerExit, holder := Zombie,
    syncW := NOBODY, readyW := NOBODY, fifo := CLOSED.(everOpen := true))

  const OVERWRITTEN := ENDED.(log := ENDED.log.(stamped := true),
    dir := Some(Files(Some(ExitedUnknown), Some(Command), Some(Runner), Some(Holder), None)))

  lemma Forks()
    requires Reachable(START)
    ensures Reachable(World(FORKED, []))
  {
    hide Reachable;
    var w := Moved(START, L);
    w := Moved(w, L);
    w := Moved(w, L);
    w := Moved(w, L);
    w := Moved(w, L);
    assert w == World(FORKED, []);
  }

  lemma Spawns()
    requires Reachable(World(FORKED, []))
    ensures Reachable(World(SPAWNED, []))
  {
    hide Reachable;
    var w := Moved(World(FORKED, []), R);
    w := Moved(w, R);
    w := Moved(w, R);
    w := Moved(w, R);
    assert w == World(SPAWNED, []);
  }

  lemma Notes()
    requires Reachable(World(SPAWNED, []))
    ensures Reachable(World(NOTED, []))
  {
    hide Reachable;
    var w := Moved(World(SPAWNED, []), R);
    w := Moved(w, R);
    w := Moved(w, R);
    w := Moved(w, R);
    assert w == World(NOTED, []);
  }

  lemma Reports()
    requires Reachable(World(NOTED, []))
    ensures Reachable(World(REPORTED, []))
  {
    hide Reachable;
    var w := Moved(World(NOTED, []), R);
    w := Moved(w, R);
    assert w == World(REPORTED, []);
  }

  lemma Opens()
    requires Reachable(World(REPORTED, []))
    ensures Reachable(World(OPENED, []))
  {
    hide Reachable;
    var w := Moved(World(REPORTED, []), C);
    w := Moved(w, C);
    w := Moved(w, C);
    assert w == World(OPENED, []);
  }

  lemma Executes()
    requires Reachable(World(OPENED, []))
    ensures Reachable(World(RUNNING, []))
  {
    hide Reachable;
    var w := Moved(World(OPENED, []), C);
    w := Moved(w, C);
    w := Moved(w, C);
    w := Moved(w, C);
    assert w == World(RUNNING, []);
  }

  lemma Returns()
    requires Reachable(World(RUNNING, []))
    ensures Reachable(World(STARTED, []))
  {
    hide Reachable;
    var w := Moved(World(RUNNING, []), L);
    w := Moved(w, L);
    w := Moved(w, L);
    w := Moved(w, L);
    assert w == World(STARTED, []);
  }

  /** The launcher leaves, and a resolver reads `running` just before the command ends. */
  lemma Looks()
    requires Reachable(World(STARTED, []))
    ensures Reachable(World(STARTED.(launcher := Gone), [Resolving(ReadPid)]))
  {
    hide Reachable;
    var w := Moved(World(STARTED, []), SystemMove(LauncherVanishes));
    w := Moved(w, NewResolver);
    w := Moved(w, C0);
    assert w == World(STARTED.(launcher := Gone), [Resolving(ReadPid)]);
  }

  lemma Ends()
    requires Reachable(World(STARTED.(launcher := Gone), [Resolving(ReadPid)]))
    ensures Reachable(World(RECORDED, [Resolving(ReadPid)]))
  {
    hide Reachable;
    var w := Moved(World(STARTED.(launcher := Gone), [Resolving(ReadPid)]), SystemMove(CommandMoves(Quit(0))));
    w := Moved(w, R);
    w := Moved(w, R);
    assert w == World(RECORDED, [Resolving(ReadPid)]);
  }

  lemma Reaps()
    requires Reachable(World(RECORDED, [Resolving(ReadPid)]))
    ensures Reachable(World(ENDED, [Resolving(ReadPid)]))
  {
    hide Reachable;
    var w := Moved(World(RECORDED, [Resolving(ReadPid)]), R);
    w := Moved(w, R);
    w := Moved(w, SystemMove(RunnerReaped));
    assert w == World(ENDED, [Resolving(ReadPid)]);
  }

  lemma Overwrites()
    requires Reachable(World(ENDED, [Resolving(ReadPid)]))
    ensures Reachable(World(OVERWRITTEN, [Resolving(Resolved(Some(ExitedUnknown)))]))
  {
    hide Reachable;
    var w := Moved(World(ENDED, [Resolving(ReadPid)]), C0);
    w := Moved(w, C0);
    w := Moved(w, C0);
    w := Moved(w, C0);
    w := Moved(w, C0);
    assert w == World(OVERWRITTEN, [Resolving(Resolved(Some(ExitedUnknown)))]);
  }

  lemma ReachesOpened()
    ensures Reachable(World(OPENED, []))
  {
    assert Run(START, []) == Some(START);
    assert Reachable(START);
    hide Run, Reachable;
    Forks();
    Spawns();
    Notes();
    Reports();
    Opens();
  }

  lemma Runs()
    ensures Reachable(World(RUNNING, []))
  {
    ReachesOpened();
    Executes();
    hide Reachable;
  }

  /** Nobody was signalled, the command exited with 0, and the status says unknown. */
  predicate Overwritten(s: Sys) {
    && s.dir.Some? && !s.log.runnerSignalled && !s.log.commandSignalled
    && s.outcome == Some(Exited(0)) && Status(s) == Some(ExitedUnknown)
  }

  lemma TrueStatusOverwritten()
    ensures exists w: World :: Reachable(w) && Overwritten(w.sys)
  {
    Runs();
    hide Run, Reachable;
    Returns();
    Looks();
    Ends();
    Reaps();
    Overwrites();
    assert Overwritten(OVERWRITTEN);
  }

  // ---- A kill that kills nobody ----------------------------------------------

  /** The launcher died before it could record the command's pid. */
  predicate SurvivesKill(s: Sys) {
    && s.dir.Some? && Status(s) == Some(Running) && s.command.Live? && s.dir.value.runnerPid.Some?
    && var (t, k) := KillerAlone(s, KillReadStatus, true, 8);
       k == Answered(true) && !t.command.Dead()
  }

  lemma KilledButAlive()
    ensures exists w: World :: Reachable(w) && SurvivesKill(w.sys)
  {
    Runs();
    hide Reachable;
    var w := Moved(World(RUNNING, []), SystemMove(LauncherVanishes));
    KilledAloneExactly(w, true);
    hide KillerAlone;
    assert SurvivesKill(w.sys);
  }
}
