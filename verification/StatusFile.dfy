/** Replacing and reading the status file (src/process.rs) while any number of processes
    write it, one system call at a time. */
module StatusFile {
  import opened Common
  import opened ProcessState

  type Pid = nat

  /** Where a process is in `write_status`. */
  datatype Writer = Idle | Writing(text: string, done: nat) | Dead

  /** The status file and each process's own temporary file. */
  datatype Dir = Dir(status: Option<string>, temps: map<Pid, string>, writers: map<Pid, Writer>)

  const EMPTY := Dir(None, map[], map[])

  datatype Action =
    | Begin(p: Pid, text: string)   // create or truncate the temporary file
    | Put(p: Pid, n: nat)           // one write to it
    | Rename(p: Pid)
    | GiveUp(p: Pid)                // a call failed; the temporary file stays
    | Die(p: Pid)

  function WriterOf(d: Dir, p: Pid): Writer {
    if p in d.writers then d.writers[p] else Idle
  }

  function Step(d: Dir, a: Action): Option<Dir> {
    var w := WriterOf(d, a.p);
    match a
    case Begin(p, text) =>
      if !w.Idle? then None
      else Some(Dir(d.status, d.temps[p := ""], d.writers[p := Writing(text, 0)]))
    case Put(p, n) =>
      if w.Writing? && p in d.temps && 1 <= n <= |w.text| - w.done then
        Some(d.(temps := d.temps[p := d.temps[p] + w.text[w.done..w.done + n]],
                writers := d.writers[p := w.(done := w.done + n)]))
      else None
    case Rename(p) =>
      if w.Writing? && w.done == |w.text| && p in d.temps then
        Some(d.(status := Some(d.temps[p]), temps := d.temps - {p}, writers := d.writers[p := Idle]))
      else None
    case GiveUp(p) => if w.Writing? then Some(d.(writers := d.writers[p := Idle])) else None
    case Die(p) => Some(d.(writers := d.writers[p := Dead]))
  }

  function Run(d: Dir, actions: seq<Action>): Option<Dir>
    decreases |actions|
  {
    if actions == [] then Some(d)
    else
      match Step(d, actions[0])
      case None => None
      case Some(d') => Run(d', actions[1..])
  }

  predicate Valid(d: Dir) {
    forall p :: p in d.writers && d.writers[p].Writing? ==>
      var w := d.writers[p];
      w.done <= |w.text| && p in d.temps && d.temps[p] == w.text[..w.done]
  }

  lemma StepKeeps(d: Dir, a: Action, d': Dir)
    requires Valid(d) && Step(d, a) == Some(d')
    ensures Valid(d')
  {
    var w := WriterOf(d, a.p);
    if a.Put? {
      TakeMore(w.text, w.done, w.done + a.n);
    }
  }

  /** Writing is atomic to a reader: the status changes at a rename only, to all of that
      process's text. */
  lemma Atomic(d: Dir, a: Action, d': Dir)
    requires Valid(d) && Step(d, a) == Some(d')
    ensures d'.status == if a.Rename? then Some(WriterOf(d, a.p).text) else d.status
  {
    var w := WriterOf(d, a.p);
    if a.Rename? {
      assert w.text[..w.done] == w.text;
    }
  }

  /** `read_status`, for a file that is there. */
  function ReadStatus(d: Dir): Option<State> {
    if d.status.None? then None else Some(Parse(d.status.value))
  }

  /** The texts that made it to their rename: all of each was written by then (see Atomic). */
  function Completed(d: Dir, actions: seq<Action>): set<string>
    requires Run(d, actions).Some?
    decreases |actions|
  {
    if actions == [] then {}
    else
      var rest := Completed(Step(d, actions[0]).value, actions[1..]);
      if actions[0].Rename? then {WriterOf(d, actions[0].p).text} + rest else rest
  }

  /** The visible status is the one before, or a completed one. */
  lemma {:induction false} StatusIsCompleted(d: Dir, actions: seq<Action>, d': Dir)
    requires Valid(d) && Run(d, actions) == Some(d')
    ensures d'.status == d.status || (d'.status.Some? && d'.status.value in Completed(d, actions))
    decreases |actions|
  {
    if actions != [] {
      var next := Step(d, actions[0]).value;
      StepKeeps(d, actions[0], next);
      Atomic(d, actions[0], next);
      hide Step, Valid;
      StatusIsCompleted(next, actions[1..], d');
    }
  }

  /** Texts that stand for one of these states, as the protocol writes them. */
  predicate Shows(text: string, states: set<State>) {
    exists st :: st in states && InRange(st) && !st.ExecFailed? && text == Display(st)
  }

  /** Whoever reads, whenever: nothing yet, or a state that some process wrote in full. What
      was begun by a process that died or gave up is never seen. */
  lemma ReadsAreWritten(actions: seq<Action>, d: Dir, states: set<State>)
    requires Run(EMPTY, actions) == Some(d)
    requires forall t :: t in Completed(EMPTY, actions) ==> Shows(t, states)
    ensures ReadStatus(d).Some? ==> ReadStatus(d).value in states
    ensures d.status.Some? ==> d.status.value in Completed(EMPTY, actions)
  {
    StatusIsCompleted(EMPTY, actions, d);
    if d.status.Some? {
      assert Shows(d.status.value, states);
      var st :| st in states && InRange(st) && !st.ExecFailed? && d.status.value == Display(st);
      ParseInvertsDisplay(st);
    }
  }
}
