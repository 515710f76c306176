/** Runs in which a `clean` comes between the reads of other clients. */
module LifecycleCleaned {
  import opened Common
  import opened Kernel
  import opened ProcessState
  import opened Lifecycle
  import opened LifecycleInvariant
  import opened LifecycleRace

  const CLEAN := SystemMove(Cleaned)

  // ---- A kill that answers for a living command ------------------------------

  /** A resolver has read that no command is recorded, and is about to look at the runner. */
  const ASKING := Resolving(CheckRunner(Some(Runner)))

  /** A first `kill` has signalled the group, and the program has survived. */
  const TERMED := STARTED.(runner := Zombie, holder := Zombie, syncW := NOBODY, readyW := NOBODY,
    fifo := STARTED.fifo.(rw := NOBODY), log := STARTED.log.(runnerSignalled := true))

  /** The resolver has stamped ... */
  const MISTAKEN := TERMED.(launcher := Gone, runner := Reaped, log := TERMED.log.(stamped := true),
    dir := Some(Files(Some(ExitedUnknown), Some(Command), Some(Runner), Some(Holder), None)))

  /** ... and a `clean` has believed it. */
  const REMOVED := MISTAKEN.(dir := None)

  const FIRST := Killing(KillCheck(Some(Runner), Some(Command)))
  const STAMPER := Resolving(Resolved(Some(ExitedUnknown)))

  lemma Asks()
    requires Reachable(World(RUNNING, []))
    ensures Reachable(World(RUNNING, [ASKING]))
  {
    hide Reachable;
    var w := Moved(World(RUNNING, []), NewResolver);
    w := Moved(w, C0);
    w := Moved(w, C0);
    w := Moved(w, C0);
    w := Moved(w, C0);
    assert w == World(RUNNING, [ASKING]);
  }

  lemma ReturnsMeanwhile()
    requires Reachable(World(RUNNING, [ASKING]))
    ensures Reachable(World(STARTED, [ASKING]))
  {
    hide Reachable;
    var w := Moved(World(RUNNING, [ASKING]), L);
    w := Moved(w, L);
    w := Moved(w, L);
    w := Moved(w, L);
    assert w == World(STARTED, [ASKING]);
  }

  /** Two `kill`s both find the process running. */
  lemma Kills()
    requires Reachable(World(STARTED, [ASKING]))
    ensures Reachable(World(STARTED, [ASKING, Killing(KillReadRunner), Killing(KillReadRunner)]))
  {
    hide Reachable;
    var w := Moved(World(STARTED, [ASKING]), NewKiller);
    w := Moved(w, NewKiller);
    w := Moved(w, ClientMove(1, true));
    w := Moved(w, ClientMove(2, true));
    assert w == World(STARTED, [ASKING, Killing(KillReadRunner), Killing(KillReadRunner)]);
  }

  lemma Terms()
    requires Reachable(World(STARTED, [ASKING, Killing(KillReadRunner), Killing(KillReadRunner)]))
    ensures Reachable(World(TERMED, [ASKING, FIRST, Killing(KillReadRunner)]))
  {
    hide Reachable;
    var w := Moved(World(STARTED, [ASKING, Killing(KillReadRunner), Killing(KillReadRunner)]), ClientMove(1, true));
    w := Moved(w, ClientMove(1, true));
    w := Moved(w, ClientMove(1, true));
    assert w == World(TERMED, [ASKING, FIRST, Killing(KillReadRunner)]);
  }

  lemma Mistakes()
    requires Reachable(World(TERMED, [ASKING, FIRST, Killing(KillReadRunner)]))
    ensures Reachable(World(MISTAKEN, [STAMPER, FIRST, Killing(KillReadRunner)]))
  {
    hide Reachable;
    var w := Moved(World(TERMED, [ASKING, FIRST, Killing(KillReadRunner)]), SystemMove(LauncherVanishes));
    w := Moved(w, SystemMove(RunnerReaped));
    w := Moved(w, C0);
    w := Moved(w, C0);
    assert w == World(MISTAKEN, [STAMPER, FIRST, Killing(KillReadRunner)]);
  }

  lemma Removes()
    requires Reachable(World(MISTAKEN, [STAMPER, FIRST, Killing(KillReadRunner)]))
    ensures Reachable(World(REMOVED, [STAMPER, FIRST, Killing(KillReadRunner)]))
  {
    hide Reachable;
    var w := Moved(World(MISTAKEN, [STAMPER, FIRST, Killing(KillReadRunner)]), CLEAN);
    assert w == World(REMOVED, [STAMPER, FIRST, Killing(KillReadRunner)]);
  }

  /** The second `kill` finds no pid and no status. */
  lemma Answers()
    requires Reachable(World(REMOVED, [STAMPER, FIRST, Killing(KillReadRunner)]))
    ensures Reachable(World(REMOVED, [STAMPER, FIRST, Killing(Answered(true))]))
  {
    hide Reachable;
    var w := Moved(World(REMOVED, [STAMPER, FIRST, Killing(KillReadRunner)]), ClientMove(2, true));
    w := Moved(w, ClientMove(2, true));
    w := Moved(w, ClientMove(2, true));
    w := Moved(w, ClientMove(2, true));
    w := Moved(w, ClientMove(2, true));
    assert w == World(REMOVED, [STAMPER, FIRST, Killing(Answered(true))]);
  }

  lemma ReachesMistake()
    ensures Reachable(World(MISTAKEN, [STAMPER, FIRST, Killing(KillReadRunner)]))
  {
    Runs();
    hide Reachable;
    Asks();
    ReturnsMeanwhile();
    Kills();
    Terms();
    Mistakes();
  }

  predicate CleansTheLiving(s: Sys) {
    s.command.Live? && s.commandPc.Program? && Clean(s).Some?
  }

  /** After a stamp and a signal to the runner, here a `kill`'s, `clean` can take a running command. */
  lemma LivingCommandCleaned()
    ensures exists w: World :: Reachable(w) && CleansTheLiving(w.sys)
  {
    ReachesMistake();
    hide Reachable;
    assert CleansTheLiving(MISTAKEN);
  }

  /** A running command behind the `Killed` of client i, for an id that `start` returned. */
  predicate AnsweredForTheLiving(w: World, i: nat) {
    && i < |w.clients| && w.clients[i] == Killing(Answered(true))
    && w.sys.log.startedWithPid && w.sys.dir.None? && w.sys.command.Live? && w.sys.commandPc.Program?
  }

  lemma KilledAfterClean()
    ensures exists w: World :: Reachable(w) && AnsweredForTheLiving(w, 2)
  {
    ReachesMistake();
    hide Reachable;
    Removes();
    Answers();
    assert AnsweredForTheLiving(World(REMOVED, [STAMPER, FIRST, Killing(Answered(true))]), 2);
  }

  // ---- An exec failure that loses its name -----------------------------------

  /** `execvp` has failed, and the grandchild has left its marker and exited ... */
  const FAILED := OPENED.(commandPc := Exit127, command := Zombie, outcome := Some(Exited(127)),
    readyByte := true, readyW := Copies(false, false, true, false),
    fifo := OPENED.fifo.(attached := false), log := OPENED.log.(execErrno := Some(2)),
    dir := Some(Files(Some(Exited(127)), None, Some(Runner), Some(Holder), Some(2))))

  /** ... and the runner has recorded that and exited. */
  const CONCLUDED := FAILED.(runner := Zombie, runnerPc := RunnerExit, holder := Zombie, command := Reaped,
    syncW := NOBODY, readyW := NOBODY, fifo := OPENED.fifo.(attached := false, rw := NOBODY))

  const NAMELESS := CONCLUDED.(dir := None)

  lemma Fails()
    requires Reachable(World(OPENED, []))
    ensures Reachable(World(FAILED, []))
  {
    hide Reachable;
    var w := Moved(World(OPENED, []), C);
    w := Moved(w, C);
    w := Moved(w, C);
    w := Moved(w, SystemMove(CommandMoves(Fail(2))));
    w := Moved(w, C);
    w := Moved(w, C);
    w := Moved(w, C);
    assert w == World(FAILED, []);
  }

  lemma Concludes()
    requires Reachable(World(FAILED, []))
    ensures Reachable(World(CONCLUDED, []))
  {
    hide Reachable;
    var w := Moved(World(FAILED, []), R);
    w := Moved(w, R);
    w := Moved(w, R);
    w := Moved(w, R);
    assert w == World(CONCLUDED, []);
  }

  /** The `clean` comes between the status and the marker. */
  lemma LosesTheMarker()
    requires Reachable(World(CONCLUDED, []))
    ensures Reachable(World(NAMELESS, [Resolving(Resolved(Some(Exited(127))))]))
  {
    hide Reachable;
    var w := Moved(World(CONCLUDED, []), NewResolver);
    w := Moved(w, C0);
    w := Moved(w, CLEAN);
    w := Moved(w, C0);
    assert w == World(NAMELESS, [Resolving(Resolved(Some(Exited(127))))]);
  }

  /** Nobody was signalled, `execvp` failed, and client i answers with a plain exited(127). */
  predicate Misnamed(w: World, i: nat) {
    && i < |w.clients| && w.clients[i] == Resolving(Resolved(Some(Exited(127))))
    && w.sys.commandPc.Exit127? && w.sys.log.execErrno == Some(2)
    && !w.sys.log.runnerSignalled && !w.sys.log.commandSignalled && !w.sys.log.stamped
  }

  lemma ExecFailureMisnamed()
    ensures exists w: World :: Reachable(w) && Misnamed(w, 0)
  {
    ReachesOpened();
    hide Reachable;
    Fails();
    Concludes();
    LosesTheMarker();
    assert Misnamed(World(NAMELESS, [Resolving(Resolved(Some(Exited(127))))]), 0);
  }

  // ---- A run that does not learn how its command ended -----------------------

  /** `run` has read the command's pid, and the command has exited with 0. */
  const POLLING := STARTED.(launcher := Poll(ReadRunner(Some(Command))))

  const ENDING := POLLING.(runnerPc := StopHolder, command := Reaped, outcome := Some(Exited(0)),
    fifo := STARTED.fifo.(attached := false),
    dir := Some(Files(Some(Exited(0)), Some(Command), Some(Runner), Some(Holder), None)))

  const EXITED := ENDING.(runner := Zombie, runnerPc := RunnerExit, holder := Zombie, syncW := NOBODY, readyW := NOBODY,
    fifo := STARTED.fifo.(attached := false, rw := NOBODY))

  const SEARCHING := EXITED.(launcher := Poll(CheckRunner(None)), dir := None)

  const UNLEARNED := EXITED.(launcher := Finished(ExitedUnknown), dir := None)

  lemma Polls()
    requires Reachable(World(STARTED, []))
    ensures Reachable(World(STARTED.(launcher := Poll(ReadStatus)), []))
  {
    hide Reachable;
    var w := Moved(World(STARTED, []), L);
    assert w == World(STARTED.(launcher := Poll(ReadStatus)), []);
  }

  lemma ReadsTheStatus()
    requires Reachable(World(STARTED.(launcher := Poll(ReadStatus)), []))
    ensures Reachable(World(POLLING, []))
  {
    hide Reachable;
    var w := Moved(World(STARTED.(launcher := Poll(ReadStatus)), []), L);
    w := Moved(w, L);
    assert w == World(POLLING, []);
  }

  lemma EndsMeanwhile()
    requires Reachable(World(POLLING, []))
    ensures Reachable(World(ENDING, []))
  {
    hide Reachable;
    var w := Moved(World(POLLING, []), SystemMove(CommandMoves(Quit(0))));
    w := Moved(w, R);
    w := Moved(w, R);
    assert w == World(ENDING, []);
  }

  lemma Exits()
    requires Reachable(World(ENDING, []))
    ensures Reachable(World(EXITED, []))
  {
    hide Reachable;
    var w := Moved(World(ENDING, []), R);
    w := Moved(w, R);
    assert w == World(EXITED, []);
  }

  lemma LosesTheFiles()
    requires Reachable(World(EXITED, []))
    ensures Reachable(World(EXITED.(dir := None), []))
  {
    hide Reachable;
    var w := Moved(World(EXITED, []), CLEAN);
    assert w == World(EXITED.(dir := None), []);
  }

  lemma FindsNothing()
    requires Reachable(World(EXITED.(dir := None), []))
    ensures Reachable(World(SEARCHING, []))
  {
    hide Reachable;
    var w := Moved(World(EXITED.(dir := None), []), L);
    w := Moved(w, L);
    assert w == World(SEARCHING, []);
  }

  lemma GivesUp()
    requires Reachable(World(SEARCHING, []))
    ensures Reachable(World(UNLEARNED, []))
  {
    hide Reachable;
    var w := Moved(World(SEARCHING, []), L);
    w := Moved(w, L);
    w := Moved(w, L);
    assert w == World(UNLEARNED, []);
  }

  /** Nobody was signalled, the command exited with 0, and `run` answers exited(unknown). */
  predicate Unlearned(s: Sys) {
    && s.launcher == Finished(ExitedUnknown) && s.outcome == Some(Exited(0))
    && !s.log.runnerSignalled && !s.log.commandSignalled
  }

  lemma RunMisled()
    ensures exists w: World :: Reachable(w) && Unlearned(w.sys)
  {
    Runs();
    hide Reachable;
    Returns();
    Polls();
    ReadsTheStatus();
    EndsMeanwhile();
    Exits();
    LosesTheFiles();
    FindsNothing();
    GivesUp();
    assert Unlearned(UNLEARNED);
  }
}
