/** The detached-process protocol (src/remote/start.rs, src/remote/actions.rs) as a
    transition system: the rxd that launches a command, the runner, holder and command it
    forks, and clients of other rxd processes, each moving one system call at a time. */
module Lifecycle {
  import opened Common
  import opened Kernel
  import opened ProcessState

  // ---- State -----------------------------------------------------------------

  /** The files of a process directory; the pid files hold the process they name. */
  datatype Files = Files(status: Option<State>, pid: Option<Proc>, runnerPid: Option<Proc>,
                         holderPid: Option<Proc>, execError: Option<int>)

  datatype RunnerPc =
    | OpenFifo | OpenOutputs | ForkHolder | ForkCommand | CloseFifo | CloseReady
    | RecordRunner | RecordHolder | ReportPid | CloseSync | Reap | RecordOutcome | StopHolder | RunnerExit
    | FailStatus | FailReport | FailStopHolder | FailExit
  {
    /** On the exit route of a failed setup. */
    predicate Failing() {
      FailStatus? || FailReport? || FailStopHolder? || FailExit?
    }

    /** How far along the main route; 0 on the failure route. */
    function Progress(): nat {
      match this
      case OpenFifo => 0 case OpenOutputs => 1 case ForkHolder => 2 case ForkCommand => 3
      case CloseFifo => 4 case CloseReady => 5 case RecordRunner => 6 case RecordHolder => 7
      case ReportPid => 8 case CloseSync => 9 case Reap => 10 case RecordOutcome => 11
      case StopHolder => 12 case RunnerExit => 13
      case _ => 0
    }
  }

  datatype HolderPc = HolderCloseSync | HolderCloseReady | Pause

  datatype CommandPc =
    | CommandCloseSync | CommandCloseFifo | OpenStdin | SignalReady | CommandCloseReady | Enter | Exec
    | RecordErrno | CommandFailStatus | Exit127 | Program

  /** What the launcher reads from the sync pipe. */
  datatype Report = Nothing | Zero | Pid(p: Proc)

  /** A read of the process state under way (`resolve_state`): its own steps, and what it
      has read so far. */
  datatype Resolver =
    | ReadStatus
    | ReadMarker(st: State)
    | ReadPid
    | ReadRunner(pid: Option<Proc>)
    | CheckCommand(pid: Option<Proc>, runner: Option<Proc>)
    | CheckRunner(runner: Option<Proc>)
    | Heal
    | Resolved(result: Option<State>)

  /** The launching rxd: `start`, and what `run` does after it. */
  datatype LauncherPc =
    | MakeDir | WriteRunning | Fork | CloseSyncWrite | CloseReadyWrite | ReadSync | RecordPid | ReadReady
    | Return(gotPid: bool) | Started
    | FeedOpen | Feed | FeedClose(fedAll: bool) | CloseCheck | CloseKill | CloseResolve(r: Resolver)
    | Poll(r: Resolver) | Finished(result: State) | TimedOut | Gone

  /** Facts about the past that no process can see. */
  datatype Log = Log(
    started: bool, startedWithPid: bool,   // the launcher returned `Started`, having read a pid
    startMark: nat,                        // bytes the FIFO had accepted by then
    runnerSignalled: bool, commandSignalled: bool,
    stamped: bool,                         // a split resolver wrote exited(unknown)
    execErrno: Option<int>,                // execvp failed
    fed: nat, foreign: bool)               // bytes `run` fed; another client opened the FIFO for writing

  datatype Job = Job(run: bool, body: seq<byte>, keepOpen: bool)

  datatype Sys = Sys(
    job: Job, dir: Option<Files>,
    launcher: LauncherPc,
    runner: Life, runnerPc: RunnerPc,
    holder: Life, holderPc: HolderPc,
    command: Life, commandPc: CommandPc, outcome: Option<State>,
    syncW: Copies, sync: Report, readyW: Copies, readyByte: bool,
    fifo: Fifo, log: Log)

  function Initial(job: Job): Sys {
    Sys(job, None, MakeDir, Unborn, OpenFifo, Unborn, HolderCloseSync, Unborn, CommandCloseSync, None,
        NOBODY, Nothing, NOBODY, false, CLOSED, Log(false, false, 0, false, false, false, None, 0, false))
  }

  // ---- Shared effects --------------------------------------------------------

  function LifeOf(s: Sys, p: Proc): Life {
    match p
    case Launcher => if s.launcher.Gone? then Reaped else Live
    case Runner => s.runner
    case Holder => s.holder
    case Command => s.command
  }

  function Status(s: Sys): Option<State> {
    if s.dir.Some? then s.dir.value.status else None
  }

  /** Writes fail, unnoticed, once the directory is gone. */
  function SetStatus(s: Sys, st: State): Sys {
    if s.dir.Some? then s.(dir := Some(s.dir.value.(status := Some(st)))) else s
  }

  function DieRunner(s: Sys): Sys {
    s.(runner := Zombie, syncW := s.syncW.(runner := false), readyW := s.readyW.(runner := false),
       fifo := s.fifo.WithRW(s.fifo.rw.(runner := false)))
  }

  function DieHolder(s: Sys): Sys {
    s.(holder := Zombie, syncW := s.syncW.(holder := false), readyW := s.readyW.(holder := false),
       fifo := s.fifo.WithRW(s.fifo.rw.(holder := false)))
  }

  function DieCommand(s: Sys, outcome: State): Sys {
    s.(command := Zombie, outcome := Some(outcome),
       syncW := s.syncW.(command := false), readyW := s.readyW.(command := false),
       fifo := s.fifo.WithRW(s.fifo.rw.(command := false)).Detach())
  }

  function SignalRunner(s: Sys): Sys {
    if s.runner.Live? then DieRunner(s).(log := s.log.(runnerSignalled := true)) else s
  }

  function SignalHolder(s: Sys): Sys {
    if s.holder.Live? then DieHolder(s) else s
  }

  function SignalCommand(s: Sys, sig: int): Sys {
    if s.command.Live? then DieCommand(s, Signaled(sig)).(log := s.log.(commandSignalled := true)) else s
  }

  const SIGKILL := 9
  const SIGTERM := 15

  /** SIGTERM to the group; only a program already running can survive it. */
  function TermGroup(s: Sys, survives: bool): Sys {
    var t := SignalHolder(SignalRunner(s));
    if survives && s.commandPc.Program? then t else SignalCommand(t, SIGTERM)
  }

  function KillGroup(s: Sys): Sys {
    SignalCommand(SignalHolder(SignalRunner(s)), SIGKILL)
  }

  predicate GroupAnswers(s: Sys) {
    s.runner.Answers() || s.holder.Answers() || s.command.Answers()
  }

  // ---- Processes -------------------------------------------------------------

  /** One step of the runner; `fails` picks the failure branch where there is one. */
  function RunnerStep(s: Sys, fails: bool): Option<Sys> {
    if !s.runner.Live? then None
    else
      match s.runnerPc
      case OpenFifo =>
        if fails then Some(s.(runnerPc := FailStatus))
        else Some(s.(runnerPc := OpenOutputs, fifo := s.fifo.WithRW(s.fifo.rw.(runner := true))))
      case OpenOutputs => Some(s.(runnerPc := if fails then FailStatus else ForkHolder))
      case ForkHolder =>
        if fails then Some(s.(runnerPc := FailStatus))
        else Some(s.(runnerPc := ForkCommand, holder := Live, syncW := s.syncW.(holder := true),
                     readyW := s.readyW.(holder := true), fifo := s.fifo.WithRW(s.fifo.rw.(holder := true))))
      case ForkCommand =>
        if fails then Some(s.(runnerPc := FailStatus))
        else Some(s.(runnerPc := CloseFifo, command := Live, syncW := s.syncW.(command := true),
                     readyW := s.readyW.(command := true), fifo := s.fifo.WithRW(s.fifo.rw.(command := true))))
      case CloseFifo => Some(s.(runnerPc := CloseReady, fifo := s.fifo.WithRW(s.fifo.rw.(runner := false))))
      case CloseReady => Some(s.(runnerPc := RecordRunner, readyW := s.readyW.(runner := false)))
      case RecordRunner =>
        var t := s.(runnerPc := RecordHolder);
        Some(if s.dir.Some? then t.(dir := Some(s.dir.value.(runnerPid := Some(Runner)))) else t)
      case RecordHolder =>
        var t := s.(runnerPc := ReportPid);
        Some(if s.dir.Some? then t.(dir := Some(s.dir.value.(holderPid := Some(Holder)))) else t)
      case ReportPid => Some(s.(runnerPc := CloseSync, sync := Pid(Command)))
      case CloseSync => Some(s.(runnerPc := Reap, syncW := s.syncW.(runner := false)))
      case Reap => if s.command.Zombie? then Some(s.(runnerPc := RecordOutcome, command := Reaped)) else None
      case RecordOutcome =>
        Some(SetStatus(s, s.outcome.GetOr(ExitedUnknown)).(runnerPc := StopHolder))
      case StopHolder => Some(SignalHolder(s).(runnerPc := RunnerExit))
      case RunnerExit => Some(DieRunner(s))
      case FailStatus => Some(SetStatus(s, Exited(127)).(runnerPc := FailReport))
      case FailReport => Some(s.(runnerPc := if s.holder.Unborn? then FailExit else FailStopHolder, sync := Zero))
      case FailStopHolder => Some(SignalHolder(s).(runnerPc := FailExit))
      case FailExit => Some(DieRunner(s))
  }

  function HolderStep(s: Sys): Option<Sys> {
    if !s.holder.Live? then None
    else
      match s.holderPc
      case HolderCloseSync => Some(s.(holderPc := HolderCloseReady, syncW := s.syncW.(holder := false)))
      case HolderCloseReady => Some(s.(holderPc := Pause, readyW := s.readyW.(holder := false)))
      case Pause => None
  }

  datatype CommandChoice = Go | Fail(errno: int) | Take(n: nat) | CloseStdin | Quit(code: int)

  /** One step of the grandchild, and of the program it becomes. */
  function CommandStep(s: Sys, c: CommandChoice): Option<Sys> {
    if !s.command.Live? then None
    else
      match s.commandPc
      case CommandCloseSync => Some(s.(commandPc := CommandCloseFifo, syncW := s.syncW.(command := false)))
      case CommandCloseFifo => Some(s.(commandPc := OpenStdin, fifo := s.fifo.WithRW(s.fifo.rw.(command := false))))
      case OpenStdin =>
        if c.Fail? then Some(s.(commandPc := CommandFailStatus))
        else Some(s.(commandPc := SignalReady, fifo := if s.fifo.everOpen then s.fifo else s.fifo.Attach()))
      case SignalReady => Some(s.(commandPc := CommandCloseReady, readyByte := true))
      case CommandCloseReady => Some(s.(commandPc := Enter, readyW := s.readyW.(command := false)))
      case Enter => Some(s.(commandPc := if c.Fail? then CommandFailStatus else Exec))
      case Exec =>
        if c.Fail? then Some(s.(commandPc := RecordErrno, log := s.log.(execErrno := Some(c.errno))))
        else Some(s.(commandPc := Program))
      case RecordErrno =>
        var t := s.(commandPc := CommandFailStatus);
        Some(if s.dir.Some? then t.(dir := Some(s.dir.value.(execError := s.log.execErrno))) else t)
      case CommandFailStatus => Some(SetStatus(s, Exited(127)).(commandPc := Exit127))
      case Exit127 => Some(DieCommand(s, Exited(127)))
      case Program =>
        match c
        case Take(n) =>
          if s.fifo.attached && s.fifo.everOpen && n <= |s.fifo.buf| then Some(s.(fifo := s.fifo.Read(n))) else None
        case CloseStdin => if s.fifo.attached then Some(s.(fifo := s.fifo.Detach())) else None
        case Quit(code) => Some(DieCommand(s, Exited(code)))
        case _ => None
  }

  /** One step of `resolve_state`. */
  function ResolverStep(s: Sys, r: Resolver): (Sys, Resolver) {
    match r
    case ReadStatus =>
      (s, match Status(s)
          case None => Resolved(None)
          case Some(st) => if st == Running then ReadPid else ReadMarker(st))
    case ReadMarker(st) =>
      (s, Resolved(Some(if s.dir.Some? && s.dir.value.execError.Some? then ExecFailed(s.dir.value.execError.value)
                        else st)))
    case ReadPid => (s, ReadRunner(if s.dir.Some? then s.dir.value.pid else None))
    case ReadRunner(pid) =>
      var runner := if s.dir.Some? then s.dir.value.runnerPid else None;
      (s, if pid.None? && runner.None? then Resolved(Some(Running)) else CheckCommand(pid, runner))
    case CheckCommand(pid, runner) =>
      (s, if pid.Some? && LifeOf(s, pid.value).Answers() then Resolved(Some(Running)) else CheckRunner(runner))
    case CheckRunner(runner) =>
      (s, if runner.Some? && LifeOf(s, runner.value).Answers() then Resolved(Some(Running)) else Heal)
    case Heal =>
      (SetStatus(s, ExitedUnknown).(log := s.log.(stamped := s.log.stamped || s.dir.Some?)),
       Resolved(Some(ExitedUnknown)))
    case Resolved(_) => (s, r)
  }

  datatype LauncherChoice = Proceed | Advance(n: nat) | GiveUp

  function Resume(s: Sys): LauncherPc {
    if s.job.keepOpen then Poll(ReadStatus) else CloseCheck
  }

  predicate BeforeStarted(l: LauncherPc) {
    || l.MakeDir? || l.WriteRunning? || l.Fork? || l.CloseSyncWrite? || l.CloseReadyWrite?
    || l.ReadSync? || l.RecordPid? || l.ReadReady? || l.Return?
  }

  /** One step of the launching rxd, in `start`. */
  function StartStep(s: Sys, c: LauncherChoice): Option<Sys> {
    match s.launcher
    case MakeDir => Some(s.(launcher := WriteRunning, dir := Some(Files(None, None, None, None, None))))
    case WriteRunning => Some(SetStatus(s, Running).(launcher := Fork))
    case Fork =>
      if c.GiveUp? then Some(s.(launcher := Gone))
      else Some(s.(launcher := CloseSyncWrite, runner := Live, syncW := Copies(true, true, false, false),
                   readyW := Copies(true, true, false, false)))
    case CloseSyncWrite => Some(s.(launcher := CloseReadyWrite, syncW := s.syncW.(launcher := false)))
    case CloseReadyWrite => Some(s.(launcher := ReadSync, readyW := s.readyW.(launcher := false)))
    case ReadSync =>
      if s.sync.Nothing? && s.syncW.Any() then None
      else Some(s.(launcher := if s.sync.Pid? then RecordPid else Return(false)))
    case RecordPid =>
      var t := s.(launcher := ReadReady);
      Some(if s.dir.Some? && s.sync.Pid? then t.(dir := Some(s.dir.value.(pid := Some(s.sync.p)))) else t)
    case ReadReady => if s.readyByte || !s.readyW.Any() then Some(s.(launcher := Return(true))) else None
    case Return(gotPid) =>
      Some(s.(launcher := Started,
              log := s.log.(started := true, startedWithPid := gotPid, startMark := |s.fifo.accepted|)))
    case _ => None
  }

  /** ... writing to the FIFO, in `run`: any part of the rest, until a reader is missing or
      time runs out. */
  function FeedStep(s: Sys, c: LauncherChoice): Option<Sys> {
    if s.log.fed >= |s.job.body| then Some(s.(launcher := FeedClose(true)))
    else if c.GiveUp? || (c.Advance? && !s.fifo.HasReader()) then Some(s.(launcher := FeedClose(false)))
    else if c.Advance? && 0 < c.n <= |s.job.body| - s.log.fed then
      Some(s.(fifo := s.fifo.Write(s.job.body[s.log.fed..s.log.fed + c.n]), log := s.log.(fed := s.log.fed + c.n)))
    else None
  }

  /** ... opening and closing stdin around that, in `run`. */
  function StdinStep(s: Sys): Option<Sys> {
    match s.launcher
    case Started =>
      if !s.job.run then None
      else Some(s.(launcher := if s.job.body != [] then FeedOpen else Resume(s)))
    case FeedOpen =>
      if s.fifo.HasReader() then Some(s.(launcher := Feed, fifo := s.fifo.(feeding := true)))
      else Some(s.(launcher := Resume(s)))
    case FeedClose(_) => Some(s.(launcher := Resume(s), fifo := s.fifo.(feeding := false).Settle()))
    case CloseCheck =>
      Some(s.(launcher := if Status(s).Some? && Status(s) != Some(Running) then Poll(ReadStatus) else CloseKill))
    case CloseKill =>
      if s.dir.Some? && s.dir.value.holderPid.Some? && s.holder.Answers() then
        Some(SignalHolder(s).(launcher := Poll(ReadStatus)))
      else Some(s.(launcher := CloseResolve(ReadStatus)))
    case _ => None
  }

  /** ... and resolving the state: once after a failed close, then until it is terminal. */
  function PollStep(s: Sys, c: LauncherChoice): Option<Sys> {
    match s.launcher
    case CloseResolve(r) =>
      if r.Resolved? then Some(s.(launcher := Poll(ReadStatus)))
      else var (t, r') := ResolverStep(s, r); Some(t.(launcher := CloseResolve(r')))
    case Poll(r) =>
      if r.Resolved? then
        if r.result.Some? && r.result.value != Running then Some(s.(launcher := Finished(r.result.value)))
        else Some(s.(launcher := if c.GiveUp? then TimedOut else Poll(ReadStatus)))
      else var (t, r') := ResolverStep(s, r); Some(t.(launcher := Poll(r')))
    case _ => None
  }

  function LauncherStep(s: Sys, c: LauncherChoice): Option<Sys> {
    if BeforeStarted(s.launcher) then StartStep(s, c)
    else if s.launcher.CloseResolve? || s.launcher.Poll? then PollStep(s, c)
    else if s.launcher.Feed? then FeedStep(s, c)
    else StdinStep(s)
  }

  /** The launcher can die at any moment, and does when it is done. */
  function LauncherVanish(s: Sys): Sys {
    s.(launcher := Gone, syncW := s.syncW.(launcher := false), readyW := s.readyW.(launcher := false),
       fifo := s.fifo.(feeding := false).Settle())
  }

  // ---- Observers -------------------------------------------------------------

  /** What `resolve_state` finds when nothing moves meanwhile, and whether it heals. */
  function Snapshot(s: Sys): (r: (Option<State>, bool)) {
    match Status(s)
    case None => (None, false)
    case Some(st) =>
      var f := s.dir.value;
      if st != Running then (Some(if f.execError.Some? then ExecFailed(f.execError.value) else st), false)
      else if f.pid.None? && f.runnerPid.None? then (Some(Running), false)
      else if f.pid.Some? && LifeOf(s, f.pid.value).Answers() then (Some(Running), false)
      else if f.runnerPid.Some? && LifeOf(s, f.runnerPid.value).Answers() then (Some(Running), false)
      else (Some(ExitedUnknown), true)
  }

  /** `status`, `list` and `wait` as one step. */
  function Observe(s: Sys): Sys {
    if Snapshot(s).1 then SetStatus(s, ExitedUnknown) else s
  }

  /** `clean` stops the helpers of, and removes, a directory that resolves to anything but
      running; all in one step here. */
  function Clean(s: Sys): Option<Sys> {
    var st := Snapshot(s).0;
    if st.None? || st == Some(Running) then None
    else
      var f, bare := s.dir.value, s.(dir := None);
      var t := if f.runnerPid.Some? then SignalRunner(bare) else bare;
      Some(if f.holderPid.Some? then SignalHolder(t) else t)
  }

  // ---- The system ------------------------------------------------------------

  datatype Action =
    | RunnerMoves(fails: bool) | HolderMoves | CommandMoves(c: CommandChoice) | LauncherMoves(l: LauncherChoice)
    | LauncherVanishes | HolderKilled | CommandKilled(sig: int) | RunnerKilled
    | RunnerReaped | HolderReaped | CommandReaped
    | OtherOpens | OtherWrites(bytes: seq<byte>) | OtherCloses
    | Observed | Cleaned

  /** One step of anything but a client that works in several steps. A stray kill of the
      runner is considered only after `Started`. */
  function Step(s: Sys, a: Action): Option<Sys> {
    match a
    case RunnerMoves(fails) => RunnerStep(s, fails)
    case HolderMoves => HolderStep(s)
    case CommandMoves(c) => CommandStep(s, c)
    case LauncherMoves(l) => LauncherStep(s, l)
    case LauncherVanishes => Some(LauncherVanish(s))
    case HolderKilled => if s.holder.Live? then Some(SignalHolder(s)) else None
    case CommandKilled(sig) => if s.command.Live? then Some(SignalCommand(s, sig)) else None
    case RunnerKilled => if s.runner.Live? && s.log.started then Some(SignalRunner(s)) else None
    case RunnerReaped => if s.runner.Zombie? && s.launcher.Gone? then Some(s.(runner := Reaped)) else None
    case HolderReaped => if s.holder.Zombie? && s.runner.Dead() then Some(s.(holder := Reaped)) else None
    case CommandReaped => if s.command.Zombie? && s.runner.Dead() then Some(s.(command := Reaped)) else None
    case OtherOpens =>
      if s.fifo.HasReader() then
        Some(s.(fifo := s.fifo.(others := s.fifo.others + 1), log := s.log.(foreign := true)))
      else None
    case OtherWrites(bytes) =>
      if s.fifo.others > 0 && s.fifo.HasReader() then Some(s.(fifo := s.fifo.Write(bytes))) else None
    case OtherCloses =>
      if s.fifo.others > 0 then Some(s.(fifo := s.fifo.(others := s.fifo.others - 1).Settle())) else None
    case Observed => Some(Observe(s))
    case Cleaned => Clean(s)
  }

  /** The steps of one `kill`, with the pids it has read. */
  datatype Killer =
    | KillReadStatus
    | KillReadRunner
    | KillReadPid(runner: Option<Proc>)
    | KillTerm(runner: Option<Proc>, pid: Option<Proc>)
    | KillCheck(runner: Option<Proc>, pid: Option<Proc>)
    | KillForce(runner: Option<Proc>, pid: Option<Proc>)
    | KillReread
    | KillStamp
    | Answered(killed: bool)   // `Killed`, or `process_exited`

  /** Signal the group of a recorded runner, or else the recorded command alone. */
  function SendTerm(s: Sys, runner: Option<Proc>, pid: Option<Proc>, survives: bool): (Sys, bool) {
    if runner.Some? then (if GroupAnswers(s) then (TermGroup(s, survives), true) else (s, false))
    else if pid.Some? && s.command.Answers() then
      (if survives && s.commandPc.Program? then s else SignalCommand(s, SIGTERM), true)
    else (s, false)
  }

  function KillerStep(s: Sys, k: Killer, survives: bool): (Sys, Killer) {
    match k
    case KillReadStatus =>
      (s, if Status(s).Some? && Status(s) != Some(Running) then Answered(false) else KillReadRunner)
    case KillReadRunner => (s, KillReadPid(if s.dir.Some? then s.dir.value.runnerPid else None))
    case KillReadPid(runner) => (s, KillTerm(runner, if s.dir.Some? then s.dir.value.pid else None))
    case KillTerm(runner, pid) =>
      var (t, sent) := SendTerm(s, runner, pid, survives);
      (t, if sent then KillCheck(runner, pid) else KillReread)
    case KillCheck(runner, pid) =>
      (s, if pid.Some? && LifeOf(s, pid.value).Answers() then KillForce(runner, pid) else KillReread)
    case KillForce(runner, pid) =>
      (if runner.Some? then KillGroup(s) else SignalCommand(s, SIGKILL), KillReread)
    case KillReread =>
      (s, if Status(s).None? || Status(s) == Some(Running) then KillStamp else Answered(true))
    case KillStamp => (SetStatus(s, ExitedKilled), Answered(true))
    case Answered(_) => (s, k)
  }

  /** Clients of other rxd processes whose reads and writes interleave with everything. */
  datatype Client = Resolving(r: Resolver) | Killing(k: Killer)

  datatype World = World(sys: Sys, clients: seq<Client>)

  datatype Move = SystemMove(a: Action) | NewResolver | NewKiller | ClientMove(i: nat, survives: bool)

  /** A `kill` is issued for an id that `start` has returned. */
  function WorldStep(w: World, m: Move): Option<World> {
    match m
    case SystemMove(a) =>
      (match Step(w.sys, a) case None => None case Some(s) => Some(w.(sys := s)))
    case NewResolver => Some(w.(clients := w.clients + [Resolving(ReadStatus)]))
    case NewKiller => if w.sys.log.started then Some(w.(clients := w.clients + [Killing(KillReadStatus)])) else None
    case ClientMove(i, survives) =>
      if i >= |w.clients| then None
      else
        match w.clients[i]
        case Resolving(r) =>
          var (s, r') := ResolverStep(w.sys, r); Some(World(s, w.clients[i := Resolving(r')]))
        case Killing(k) =>
          var (s, k') := KillerStep(w.sys, k, survives); Some(World(s, w.clients[i := Killing(k')]))
  }

  /** The state after a run of moves, if each of them was possible. */
  function Run(w: World, moves: seq<Move>): Option<World>
    decreases |moves|
  {
    if moves == [] then Some(w)
    else
      match WorldStep(w, moves[0])
      case None => None
      case Some(w') => Run(w', moves[1..])
  }

  ghost predicate Reachable(w: World) {
    exists job: Job, moves: seq<Move> :: Run(World(Initial(job), []), moves) == Some(w)
  }
}
