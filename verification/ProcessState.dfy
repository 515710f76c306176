/** The state of a process and the text that stands for it in its status file
    (src/process.rs). */
module ProcessState {
  import opened Common
  import opened Numerals

  datatype State =
    | Running
    | Exited(code: int)
    | Signaled(sig: int)
    | ExitedKilled
    | ExitedUnknown
    | ExecFailed(errno: int)

  const ENOENT := 2
  const ENOEXEC := 8
  const EACCES := 13

  function ExecReason(errno: int): string {
    if errno == ENOENT then "command_not_found"
    else if errno == EACCES then "permission_denied"
    else if errno == ENOEXEC then "exec_format_error"
    else "errno_" + Signed(errno)
  }

  /** The stable names, and a number for the rest; no two errnos share one. */
  lemma ReasonsDistinct(e: int, f: int)
    requires I32_MIN <= e <= I32_MAX && I32_MIN <= f <= I32_MAX && ExecReason(e) == ExecReason(f)
    ensures e == f
    ensures ExecReason(2) == "command_not_found" && ExecReason(13) == "permission_denied"
    ensures ExecReason(8) == "exec_format_error"
  {
    ReasonShape(e);
    ReasonShape(f);
    ParseSigned(e);
    ParseSigned(f);
    var named := {ENOENT, EACCES, ENOEXEC};
    if e !in named && f !in named {
      assert ExecReason(e)[6..] == Signed(e) && ExecReason(f)[6..] == Signed(f);
    }
  }

  lemma ReasonShape(e: int)
    ensures e !in {ENOENT, EACCES, ENOEXEC} ==> "errno_" <= ExecReason(e) && ExecReason(e)[1] == 'r'
    ensures "command_not_found"[1] == 'o' && "permission_denied"[1] == 'e' && "exec_format_error"[1] == 'x'
    ensures "command_not_found"[0] == 'c' && "permission_denied"[0] == 'p' && "exec_format_error"[0] == 'e'
  {
    hide Signed;
    assert ("errno_" + Signed(e))[1] == "errno_"[1] == 'r';
  }

  function Display(st: State): string {
    match st
    case Running => "running"
    case Exited(code) => "exited(" + Signed(code) + ")"
    case Signaled(sig) => "signaled(" + Signed(sig) + ")"
    case ExitedKilled => "exited(killed)"
    case ExitedUnknown => "exited(unknown)"
    case ExecFailed(errno) => "exec_failed(" + ExecReason(errno) + ")"
  }

  function Parse(s: string): State {
    if s == "running" then Running
    else if s == "exited(killed)" then ExitedKilled
    else if s == "exited(unknown)" then ExitedUnknown
    else if "signaled(" <= s && s[|s| - 1] == ')' then Signaled(ParseI32(s[9..|s| - 1]).GetOr(-1))
    else if "exited(" <= s && s[|s| - 1] == ')' then Exited(ParseI32(s[7..|s| - 1]).GetOr(-1))
    else ExitedUnknown
  }

  predicate InRange(st: State) {
    match st
    case Exited(code) => I32_MIN <= code <= I32_MAX
    case Signaled(sig) => I32_MIN <= sig <= I32_MAX
    case _ => true
  }

  lemma Enclosed(front: string, n: string)
    requires front != "" && n != ""
    ensures var s := front + n + ")";
      && front <= s && s[0] == front[0] && s[|front|] == n[0]
      && s[|s| - 1] == ')' && s[|front|..|s| - 1] == n
  {
  }

  /** Digits and signs do not make one of the fixed words. */
  lemma NoFixedWord(s: string)
    requires |s| > 7 && s[7] != 'k' && s[7] != 'u' && "exited(" <= s
    ensures s != "running" && s != "exited(killed)" && s != "exited(unknown)" && !("signaled(" <= s)
  {
    assert "exited(killed)"[7] == 'k' && "exited(unknown)"[7] == 'u';
    assert s[0] == "exited("[0] == 'e';
  }

  lemma ParseExited(code: int)
    requires I32_MIN <= code <= I32_MAX
    ensures Parse("exited(" + Signed(code) + ")") == Exited(code)
  {
    var n := Signed(code);
    var s := "exited(" + n + ")";
    ParseSigned(code);
    Enclosed("exited(", n);
    NoFixedWord(s);
    hide Signed, ParseI32;
  }

  lemma ParseSignaled(sig: int)
    requires I32_MIN <= sig <= I32_MAX
    ensures Parse("signaled(" + Signed(sig) + ")") == Signaled(sig)
  {
    var n := Signed(sig);
    var s := "signaled(" + n + ")";
    ParseSigned(sig);
    Enclosed("signaled(", n);
    hide Signed, ParseI32;
  }

  lemma ParseExecFailed(reason: string)
    ensures Parse("exec_failed(" + reason + ")") == ExitedUnknown
  {
    var s := "exec_failed(" + reason + ")";
    assert s[0] == 'e' && s[2] == 'e';
    assert "exited(killed)"[2] == 'i' && "exited(unknown)"[2] == 'i' && "exited("[2] == 'i';
  }

  lemma {:induction false} DecimalDigits(n: nat)
    ensures forall c :: c in Decimal(n) ==> '0' <= c <= '9'
  {
    if n >= 10 {
      DecimalDigits(n / 10);
    }
  }

  lemma SignedOpen(n: int)
    ensures ')' !in Signed(n)
  {
    DecimalDigits(if n < 0 then -n else n);
  }

  lemma ReasonOpen(e: int)
    ensures ')' !in ExecReason(e)
  {
    SignedOpen(e);
    hide Signed;
  }

  lemma ClosesLast(front: string, n: string, s: string)
    requires ')' !in front && ')' !in n && s < front + n + ")" && front != "" && front[0] != 'r'
    ensures ')' !in s && s != "running"
  {
    assert s <= front + n;
    assert "running"[0] == 'r' && (front + n)[0] == front[0];
  }

  /** A status file read while half written would say unknown. */
  lemma TornReadsUnknown(st: State, s: string)
    requires s < Display(st)
    ensures Parse(s) == ExitedUnknown
  {
    hide Signed, ParseI32, ExecReason, Parse;
    match st
    case Running => OpenReadsUnknown(s);
    case ExitedKilled => ClosesLast("exited(killed", "", s); OpenReadsUnknown(s);
    case ExitedUnknown => ClosesLast("exited(unknown", "", s); OpenReadsUnknown(s);
    case Exited(code) => SignedOpen(code); ClosesLast("exited(", Signed(code), s); OpenReadsUnknown(s);
    case Signaled(sig) => SignedOpen(sig); ClosesLast("signaled(", Signed(sig), s); OpenReadsUnknown(s);
    case ExecFailed(errno) => ReasonOpen(errno); ClosesLast("exec_failed(", ExecReason(errno), s); OpenReadsUnknown(s);
  }

  lemma OpenReadsUnknown(s: string)
    requires ')' !in s && s != "running"
    ensures Parse(s) == ExitedUnknown
  {
    hide ParseI32;
    assert s != "" ==> s[|s| - 1] in s;
    assert "exited(killed)"[13] == ')' && "exited(unknown)"[14] == ')';
  }

  /** Reading back what was written gives the state, except that an exec failure, which is
      never written to the status file, would read as unknown. */
  lemma ParseInvertsDisplay(st: State)
    requires InRange(st)
    ensures Parse(Display(st)) == if st.ExecFailed? then ExitedUnknown else st
  {
    hide Signed, ParseI32, ExecReason;
    match st
    case Running =>
    case ExitedKilled =>
    case ExitedUnknown =>
    case Exited(code) => ParseExited(code);
    case Signaled(sig) => ParseSignaled(sig);
    case ExecFailed(errno) => ParseExecFailed(ExecReason(errno));
  }
}
