/** Reading, healing, killing and cleaning as the code has them, on a system that does not
    move meanwhile (src/remote/actions.rs). */
module Observers {
  import opened Common
  import opened Kernel
  import opened ProcessState
  import opened Lifecycle
  import opened LifecycleTheorems

  /** The processes whose pid the directory holds. */
  function RecordedPids(s: Sys): set<Proc> {
    if s.dir.None? then {}
    else
      var f := s.dir.value;
      (if f.pid.Some? then {f.pid.value} else {}) + (if f.runnerPid.Some? then {f.runnerPid.value} else {})
  }

  /** Somebody can still change a status that says running, or may yet be recorded. */
  ghost predicate Attended(s: Sys) {
    RecordedPids(s) == {} || exists p :: p in RecordedPids(s) && LifeOf(s, p).Answers()
  }

  predicate SaysRunning(s: Sys) {
    Status(s) == Some(Running)
  }

  /** In every interleaving with an unsignalled runner, a status that says running is attended:
      there is nothing to heal. */
  lemma RunningIsAttended(w: World)
    requires Reachable(w) && !w.sys.log.runnerSignalled && SaysRunning(w.sys)
    ensures Attended(w.sys)
  {
    SnapshotNeverInvents(w);
    hide Reachable;
    var f := w.sys.dir.value;
    assert f.pid.Some? ==> f.pid.value in RecordedPids(w.sys);
    assert f.runnerPid.Some? ==> f.runnerPid.value in RecordedPids(w.sys);
  }

  class Managed {
    var sys: Sys

    constructor (sys: Sys)
      ensures this.sys == sys
    {
      this.sys := sys;
    }

    function ReadPid(): Option<Proc>
      reads this
    {
      if sys.dir.Some? then sys.dir.value.pid else None
    }

    function ReadRunnerPid(): Option<Proc>
      reads this
    {
      if sys.dir.Some? then sys.dir.value.runnerPid else None
    }

    method WriteStatus(st: State)
      modifies this
      ensures sys == SetStatus(old(sys), st)
    {
      sys := SetStatus(sys, st);
    }

    /** Running if and only if the status says so and is attended. A status that says running
        and is not is the only one changed, to exited(unknown); afterwards file and answer
        agree on whether the process is over, and the next answer is this one, except that an
        exec failure behind a healed status comes to light. */
    method ResolveState() returns (r: Option<State>)
      modifies this
      ensures r.None? <==> Status(old(sys)).None?
      ensures r == Some(Running) <==> SaysRunning(old(sys)) && Attended(old(sys))
      ensures Status(sys) != Status(old(sys)) <==> SaysRunning(old(sys)) && !Attended(old(sys))
      ensures sys == old(sys) || (r == Some(ExitedUnknown) && sys == SetStatus(old(sys), ExitedUnknown))
      ensures SaysRunning(sys) <==> r == Some(Running)
      ensures Snapshot(sys).0 == r || (sys != old(sys) && Snapshot(sys).0.Some? && Snapshot(sys).0.value.ExecFailed?)
      ensures r == Snapshot(old(sys)).0 && sys == Observe(old(sys))
    {
      var status := Status(sys);
      if status.None? {
        return None;
      }
      if status.value != Running {
        if sys.dir.value.execError.Some? {
          return Some(ExecFailed(sys.dir.value.execError.value));
        }
        return status;
      }
      var pid, runner := ReadPid(), ReadRunnerPid();
      if pid.None? && runner.None? {
        return status;
      }
      if pid.Some? && LifeOf(sys, pid.value).Answers() {
        return status;
      }
      if runner.Some? && LifeOf(sys, runner.value).Answers() {
        return status;
      }
      WriteStatus(ExitedUnknown);
      return Some(ExitedUnknown);
    }

    /** `exited(killed)`, unless something truthful is there. */
    method RecordKillOutcome()
      modifies this
      ensures Status(old(sys)).GetOr(Running) == Running ==> sys == SetStatus(old(sys), ExitedKilled)
      ensures Status(old(sys)).GetOr(Running) != Running ==> sys == old(sys)
      ensures sys.dir.Some? ==> Status(sys).Some? && !SaysRunning(sys)
    {
      var current := Status(sys).GetOr(Running);
      if current == Running {
        WriteStatus(ExitedKilled);
      }
    }

    /** One directory of a `clean`: it goes if and only if there is a status, and that is
        terminal or unattended. Then no recorded helper is left alive, and the command and the
        launcher are untouched; otherwise nothing changes. */
    method CleanOne() returns (removed: bool)
      modifies this
      ensures removed <==> Status(old(sys)).Some? && !(SaysRunning(old(sys)) && Attended(old(sys)))
      ensures removed ==>
        && sys.dir.None?
        && (old(sys).dir.value.runnerPid.Some? && old(sys).runner.Live? ==>
              sys.runner.Zombie? && sys.log.runnerSignalled)
        && (old(sys).dir.value.holderPid.Some? ==> !sys.holder.Live?)
        && sys.command == old(sys).command && sys.outcome == old(sys).outcome && sys.launcher == old(sys).launcher
      ensures !removed ==> sys == old(sys)
      ensures removed <==> Clean(old(sys)).Some?
      ensures removed ==> sys == Clean(old(sys)).value
    {
      if Status(sys).None? {
        return false;
      }
      var state := ResolveState();
      if state.None? || state == Some(Running) {
        return false;
      }
      var f := sys.dir.value;
      if f.runnerPid.Some? {
        sys := SignalRunner(sys);
      }
      if f.holderPid.Some? {
        sys := SignalHolder(sys);
      }
      sys := sys.(dir := None);
      return true;
    }
  }
}
