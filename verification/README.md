# rem-exec in Dafny

rem-exec runs commands on other machines over ssh: a client (`rx`), a helper started on the
remote machine for each request (`rxd`), and an optional local daemon that caches captured
output. This project models the parts of it whose correctness is an ordering or a byte-exactness
argument, and proves what they promise. `dafny verify dfyconfig.toml` checks all of it.

## What is modelled

**The detached-process protocol** (`Kernel`, `Lifecycle*`, `Observers`, `StatusFile`). `start`
forks a runner, which forks a FIFO holder and the command; the four share two handshake pipes, a
FIFO and a directory of small files, and clients of other rxd processes read, heal, kill, write
and clean meanwhile. `Lifecycle` is a transition system with one system call per step;
`Reachable` covers every interleaving of the launcher (which may die at any step), its
processes, any number of step-by-step resolvers and `kill`s, other FIFO writers, stray signals
(among them other clients' `close_stdin`, which kills the holder) and one-step observers and
cleaners. `LifecycleInvariant` holds the invariant, `LifecycleKeeps` and
`LifecycleRuns` prove that every step keeps it, `LifecycleTheorems` and `LifecycleProgress` draw the
conclusions, `LifecycleRun` shows what a `run`
that is let through brings about, and `LifecycleRace` and `LifecycleCleaned` have runs that show what the code does not
promise. `Observers` has the readers
in the code's own shape, and `StatusFile` justifies treating the replacement of the status file
as one step.

**File transfer** (`Streams`, `Framing`, `Disk`, `Install`, `Put`, `Get`, `Octal`, `Numerals`). The framing of a
body of unknown length as a printer and a parser, with the writer loop and the reader object
proved against them for every pattern of short reads; the atomic install on a disk that records
every state it goes through, so that a property of all of them covers a crash at any step; and
both directions end to end over a channel cut at any byte.

**Captured output** (`Paging`, `CachePaths`, `Daemon`, `Replica`, `Ephemeral`, `Base64`,
`StdinPipes`). Reading by offset and limit, the daemon's cache and the names of its files, the
resumable local copy of a remote stream, the removal of a finished `run`, text encodings, and the
relay loops that carry stdin.

Schedules, faults and timing are scripts given to the model: a theorem for all scripts is one
for every schedule. Time-outs are choices.

## Assumptions

- Process ids are not reused while a command is managed, and `waitpid` on the command succeeds.
- An exited child that has not been reaped still answers `kill(pid, 0)`.
- A SIGTERM or SIGKILL to the group stops the runner, the holder and anything that is not yet the
  user's program at once; a running program can survive SIGTERM. The command stays in its group.
- The runner is hit by stray signals only after `start` has returned, and `kill` is issued for ids
  that `start` has returned.
- Writes of the small files succeed as long as the directory is there; pid files and the exec
  marker are read whole or not at all.
- A `chown` clears the set-user-id bit, and the set-group-id bit of a file its group may execute, as
  Linux does.
- A random temporary name differs from the target's name.
- ssh carries bytes in order; ssh reports rxd's exit status only if the connection lived, and then
  an end of file seen by rxd is the sender's. ssh reporting success for a
  download or a `follow` means that all rxd wrote arrived.
- The local cache of a stream is not cleaned between taking its length and opening it
  (src/daemon/stream.rs:31-76), which would break the prefix property.

## What turned out not to hold

- A resolver that reads its files one by one can overwrite a true `exited(N)` with
  `exited(unknown)` (`LifecycleRace.TrueStatusOverwritten`). It takes a launcher that is gone and a
  runner that is reaped (`LifecycleTheorems.HealIsLate`); while the launcher is there no
  resolver does it (`LauncherPreventsUnknown`), nor does any that sees one snapshot
  (`SnapshotNeverInvents`).
  That race is open, in any state that says running with an unsignalled runner, if and only if
  the runner has not failed and was, or can still be, forked (`LifecycleProgress.RaceOpenExactly`).
- `kill` can answer `Killed` without a dead command: with no pid recorded it signals nobody
  (`NewbornOnlyStamped`), and with only the runner's it never gets to SIGKILL
  (`LifecycleRace.KilledButAlive`). Left alone, it leaves a dead command if and only if that was
  dead before, or the runner is recorded and either the command is too or it does not survive
  SIGTERM (`KilledAloneExactly`). For ids that `start` returned, in any interleaving, it leaves a
  dead command as long as the directory is there; if a `clean` removes it meanwhile, `kill` can
  answer for a running command (`LifecycleCleaned.KilledAfterClean`), but only after both a
  signal to the runner and a split resolver's stamp (`KilledMeansDead`).
- `clean` can take a running command (`LifecycleCleaned.LivingCommandCleaned`). It takes a command
  that is not over if and only if its status file says `exited(unknown)` (`CleanTakesExactly`), and
  the file can say so of such a command only after both a signal to the runner, by a `kill` or
  otherwise, and a split resolver's stamp (`CleanSparesTheLiving`, `SplitCleanSparesTheLiving`).
- A command that could not be executed can be resolved as a plain `exited(127)`
  (`LifecycleCleaned.ExecFailureMisnamed`): a resolver that has read the status names the failure if and
  only if the directory is still there when it looks for the marker (`MarkerDecides`).
- `run` can answer `exited(unknown)` for a command that exited with 0
  (`LifecycleCleaned.RunMisled`), but only if another client's `clean` has removed the directory under it
  (`RunReturnsTheTruth`).
- A `put` with a mode and an owner or group installs a mode other than the requested one if and
  only if that has the set-user-id bit, or the set-group-id bit with group execution
  (`Install.FinishedAsAsked`): the mode is set before the owner.
- `get` vouches for a file that was rewritten in place with the same length
  (`Get.RewriteUnnoticed`). What it installs is the file's content throughout the read if and only
  if the file was not rewritten (`VouchedIffNotRewritten`), which a file that only grew or only
  shrank was not (`VouchedCopyIsTheFile`).
- The temporary file of a `get` stays behind if, and only if, waiting for ssh or removing the
  file fails (`Get.FetchBody`); that of a `put` if removing it fails (`Install.InstallFile`).
- `follow` ends successfully on a missing file or a read error, so the daemon can give up on a
  stream whose tail it does not have (`Replica.EndsWithoutTheTail`); it has all of it whenever
  the remote directory is still there and the reads worked (`Replica.StreamWithRetry`), and
  without the directory if and only if it had all of it before (`Replica.RunFollow`). A directory
  that goes while `follow` is waiting for the end keeps it from ever ending by itself
  (`Replica.FollowOpen`).
- An ephemeral `run` whose output file cannot be opened or read deletes output nobody has
  seen (`Ephemeral.UnreadableOutputLost`); `Ephemeral.ProcessDir.Complete` has the exact condition.
- A read error on rxd's stdin is reported as a complete piped write
  (`StdinPipes.ReadErrorUnnoticed`); `StdinPipes.PipeLocalStdin` has the exact condition.

## Model

| member | source | states |
|---|---|---|
| Framing.RoundTrip | src/framing.rs:9-16 | Parsing the wire form of any list of chunks gives back their concatenation, complete, consuming exactly that form, whatever follows it |
| Framing.PrefixRejected | src/framing.rs:9-16 | Every strict prefix of a finished transfer is truncated: it delivers a prefix of the payload and is never complete |
| Framing.OnlyWiresComplete | src/framing.rs:9-16 | Whatever the bytes, a parse is complete only if what it consumed is the wire form of frames within the size limits whose concatenation is exactly the delivered payload |
| Framing.SendFrames | src/framing.rs:37-48 | The loop sends one frame per piece read until the source ends or something fails, counts in 64 bits, and succeeds only if the source ended |
| Framing.WriteFramed | src/framing.rs:30-54 | Success means the source ended, everything went out and was flushed; otherwise the sink holds what it accepted of the frames, and after a failed source no terminator |
| Framing.FramedReader.NextFrame | src/framing.rs:112-135 | A header starts a frame the parser agrees with, or settles the verdict: complete, mismatch, too large, truncated |
| Framing.FramedReader.ReadPayload | src/framing.rs:137-142 | Bytes of a frame are delivered in order and counted; an end inside a frame is truncation |
| Framing.FramedReader.Read | src/framing.rs:106-144 | Each read delivers the parser's next bytes for any buffer size and leaves the rest of the parse unchanged, or settles the verdict of the whole stream |
| Streams.Source.ReadExact | src/framing.rs:93-104 | Fills the buffer exactly across short and interrupted reads, or ends as the stream does |
| Install.FillSized | src/remote/actions.rs:595-607 | A sized body is stored only if its stream ended and its length is the declared one |
| Install.FillFramed | src/remote/actions.rs:627-655 | A framed body is stored only if the parser accepts it, and an empty one only if allowed, for any buffer size |
| Install.ApplyAttributes | src/remote/actions.rs:539-555 | On success the temporary file has the requested mode as the change of owner leaves it, and the requested owner and group; nothing else changes |
| Install.FinishedAsAsked | src/remote/actions.rs:539-555 | Content, owner and group are as asked for; the mode is if and only if no set-id bit is at stake or no owner or group is asked for |
| Install.Prepare | src/remote/actions.rs:526-555 | Either an error, or a temporary file with the accepted content and all attributes, before the target is touched |
| Install.InstallFile | src/remote/actions.rs:472-582 | At every step the target is its old content or the finished file; every failure leaves the disk as it was, or one temporary file more exactly if removing that failed; success is exactly the accepted body with its attributes |
| Install.Publish | src/remote/actions.rs:557-569 | One rename at most stands between the old target and the dressed file; a failure removes that file or, if it cannot, leaves it |
| Put.ReadRequestLine | src/remote/serve.rs:154-160 | The line is what stands before the first newline and the body starts right after it |
| Put.FramedPrefix | src/remote/actions.rs:632-653 | Of all prefixes of what a client sends, only the whole framing of a source that ended is accepted, with exactly its bytes |
| Put.WholeStreamAccepted | src/remote/actions.rs:645-653 | A stream that ended and arrived whole is refused only for being empty without permission |
| Put.BrokenStreamRefused | src/remote/actions.rs:632-640 | What a client sends of a source that broke, arriving whole, is an incomplete transfer and nothing else |
| Put.Serve | src/remote/serve.rs:105-132 | rxd installs a body only behind an undamaged request line, and reports an error only with the target unchanged and at most its temporary file left; which error it is, and the path and number of bytes of a success, are exact |
| Put.Send | src/ssh.rs:211-229 | What leaves the client is a prefix of line, newline and body, and its write result says whether all of it did |
| Put.CopyOut | src/ssh.rs:173-181 | A sized body is copied as it is read; success means the source ended and all was accepted |
| Put.PutStdin | src/ssh.rs:186-242 | `put -` end to end: old file or exactly what the client read, at every step and for every cut; `Copied` means the latter, under that path and with that many bytes; an error answer leaves at most the temporary file; a transport error if and only if rxd's answer does not arrive, and a local one only over an installed file, so every refusal that arrives is reported; without faults the answer is `Copied`, the broken source or the forbidden empty stream |
| Put.PutFile | src/ssh.rs:173-242 | Sized `put` end to end: old file or exactly the declared number of bytes; `Copied` means the source ended at that length, if an end of file on a connection that answers is the sender's; an answer that arrives is returned, a local error stands over an installed file only; without faults a file of the declared length is `Copied` and one of another length incomplete |
| Octal.AcceptsExactly | src/protocol.rs:399-404 | A text is accepted as a mode if and only if it is octal digits that spell it, with or without `0o` and a plus sign |
| Octal.UsualForms | src/protocol.rs:399-404 | `755`, `0755` and `0o755` are the same mode |
| Octal.ModeRoundTrip | src/protocol.rs:395-404 | Parsing a rendered mode gives its twelve permission bits |
| Get.Serve | src/remote/serve.rs:229-255 | The server loop computes the declared size, the bytes sent and the verdict of the second look |
| Get.CopyIsWoven | src/remote/serve.rs:239-248 | Every byte sent stood at its place in some version of the file during the read |
| Get.VouchedIffNotRewritten | src/remote/serve.rs:239-255 | A copy rxd vouches for is the file's content at every moment of the read if and only if the file was the same at all of them |
| Get.VouchedCopyIsTheFile | src/remote/serve.rs:239-255 | For append-only and for shrink-only histories a copy rxd vouches for is the file's content at every moment of the read |
| Get.StillFileServed | src/remote/serve.rs:203-255 | A file that does not change is always served whole, whatever the read sizes |
| Get.RewriteUnnoticed | src/remote/serve.rs:250-255 | A same-length rewrite between two reads is vouched for although the bytes sent are no version of the file |
| Get.CreateTemp | src/bin/rx.rs:1432-1468 | A private file under a name that was free, within the number of attempts, touching nothing else |
| Get.CopyBounded | src/bin/rx.rs:1489-1492 | The copy takes a prefix of the stream up to the declared size and no byte more |
| Get.ReceiveToTemp | src/bin/rx.rs:1472-1508 | Success stages exactly the declared bytes; every shortfall or failure leaves the disk as it was, or the temporary file exactly if removing it failed |
| Get.Drain | src/bin/rx.rs:1665-1667 | Something behind the body is noticed unless the read fails within the drain limit |
| Get.CommitTemp | src/bin/rx.rs:1512-1524 | Mode first, then one rename; a failure removes the staged file or, if it cannot, leaves it; the destination is old or complete throughout |
| Get.FetchBody | src/bin/rx.rs:1629-1696 | The destination changes only to the declared bytes with their mode and only if every check passed; a temporary file is left exactly when waiting for ssh or removing it fails; which failure is answered, with the two sizes of an incomplete transfer, is exact, and without faults of the disk it is `Got` exactly if every check passes |
| Get.Fetch | src/bin/rx.rs:1596-1701 | `get` end to end: what is installed is the whole declared body, and the content the file had throughout if and only if it was not rewritten, so always for growing or shrinking files; a success of rxd that arrives whole is installed unless the local disk fails |
| ProcessState.ReasonsDistinct | src/process.rs:246-253 | The three named exec failures have their words, and no two errnos share one |
| ProcessState.ParseInvertsDisplay | src/process.rs:255-287 | Reading back a displayed state gives the state, for all but an exec failure, which would read as unknown |
| ProcessState.TornReadsUnknown | src/process.rs:256-273 | Any part of a displayed state that is cut short reads as unknown, never as another state |
| StatusFile.Atomic | src/process.rs:137-142 | Among any writers the visible status changes at a rename only, to all of one writer's text |
| StatusFile.ReadsAreWritten | src/process.rs:137-151 | Every read, in every interleaving of writers that may fail or die at any call, is the state of a text that was renamed into place, all of it written; what a dead or failed writer began is never seen |
| LifecycleRuns.StartKeeps | src/remote/start.rs:56-391 | Every step of the launching rxd keeps the invariant and takes nothing back |
| LifecycleRuns.RunnerKeeps | src/remote/start.rs:122-368 | So does every step of the runner, on both its routes |
| LifecycleRuns.HolderKeeps | src/remote/start.rs:194-205 | So does every step of the holder |
| LifecycleRuns.CommandKeeps | src/remote/start.rs:218-321 | So does every step of the grandchild and of the program it becomes |
| LifecycleRuns.LauncherKeeps | src/remote/actions.rs:287-303 | So does every step of `run` after `start`: feeding, closing, polling |
| LifecycleRuns.ResolverMoves | src/remote/actions.rs:56-93 | One step of a split `resolve_state` keeps the invariant and what the resolver relies on |
| LifecycleRuns.KillerMoves | src/remote/actions.rs:928-996 | One step of `kill` keeps the invariant, whether or not the program survives SIGTERM |
| LifecycleRuns.KillerLearns | src/remote/actions.rs:953-993 | What each step of `kill` relies on is true when it comes to the next |
| LifecycleRuns.WorldKeeps | src/remote/actions.rs:56-93 | Steps of the system and of any client keep what all clients under way rely on |
| LifecycleRuns.ReachableInv | src/remote/start.rs:117-392 | The invariant holds in every state of every interleaving |
| LifecycleTheorems.StartedMeansReady | src/remote/start.rs:322-390 | When `start` returns after reading a pid, all three pids are recorded, only the holder has a read-write descriptor, and the command has opened its stdin or is dead |
| LifecycleTheorems.StartNeverStuck | src/remote/start.rs:371-390 | Until `start` returns, some process can take a step of the handshake |
| LifecycleTheorems.HandshakeShrinks | src/remote/start.rs:371-390 | Every such step leaves fewer |
| LifecycleProgress.MoveWork | src/remote/start.rs:117-391 | No other move of the system or of a client gives the handshake more steps to go |
| LifecycleProgress.HandshakeBounded | src/remote/start.rs:117-391 | On every schedule, `start` has returned or its rxd is gone after at most 42 steps of the handshake |
| LifecycleTheorems.StdinKept | src/remote/start.rs:102-106 | Bytes accepted after `Started` are read in order or still buffered while the command has not let go of its stdin |
| LifecycleTheorems.RunFeedsTheBody | src/remote/actions.rs:286-289 | Without other writers the command of a `run` has read, or can still read, exactly what was fed so far |
| LifecycleRun.RunFeedsEverything | src/remote/actions.rs:286-289 | A `run` that may write, in whatever pieces, feeds all of its body, and its command has read, or can still read, exactly that |
| LifecycleRun.RunClosesStdin | src/remote/actions.rs:290-292 | Unless told to keep it open, it then closes stdin: the recorded holder is dead after two steps, and nothing else has changed |
| LifecycleRun.RunSparesTheEnded | src/remote/actions.rs:797-805 | It signals nobody when the process is already over |
| LifecycleRun.RunDelivers | src/remote/actions.rs:286-292 | Both together: the command has the whole body and then its end of file |
| LifecycleTheorems.RunStdinExact | src/remote/actions.rs:286-292 | A feed that succeeded fed the whole body, and at its end of file the command has read exactly the body |
| LifecycleTheorems.EofWithoutHolder | src/remote/actions.rs:778-781 | The command is at its end of file if and only if the buffer is empty, the holder is dead and nobody else writes |
| LifecycleTheorems.LauncherPreventsUnknown | src/remote/actions.rs:83-92 | While the rxd that launched a command lives, no resolver of any client stamps `exited(unknown)` |
| LifecycleTheorems.RunReturnsTheTruth | src/remote/actions.rs:294-303 | `run` whose processes nobody signalled returns how the command ended, or the errno of its exec failure; only with its directory removed can it return `exited(unknown)`, or a plain `exited(127)` for an exec failure |
| LifecycleRun.PollAnswers | src/remote/actions.rs:372-386 | A poll that starts on a terminal state answers it in three steps and writes nothing |
| LifecycleRun.RunAnswers | src/remote/actions.rs:294-303 | Wherever the poll loop is, `run` answers within twelve steps of its own once the status is terminal |
| LifecycleRun.AnswerBeatsTimeout | src/remote/actions.rs:374-379 | A terminal state is answered even when time is up |
| LifecycleRun.TimeoutMeansUndecided | src/remote/actions.rs:372-386 | Time runs out only over a state that was found running, or over none |
| LifecycleCleaned.RunMisled | src/remote/actions.rs:57-92 | A reachable state in which nobody was signalled, the command exited with 0, and `run` answers unknown |
| LifecycleTheorems.SnapshotNeverInvents | src/remote/actions.rs:56-93 | A snapshot with an unsignalled runner heals nothing, and shows running, a value written for a reason, or the true exec failure; `exited(unknown)` only after a split resolver's stamp |
| LifecycleTheorems.ResolverAlone | src/remote/actions.rs:56-93 | A resolver left alone finds what the snapshot shows, in at most seven steps |
| LifecycleTheorems.HealIsLate | src/remote/actions.rs:88-91 | A resolver about to heal an unsignalled process always writes over a recorded status, needs a launcher that is gone and a reaped runner, and leaves `exited(unknown)` |
| LifecycleProgress.RaceOpenExactly | src/remote/actions.rs:56-93 | From a state that says running with an unsignalled runner, some continuation overwrites how the command ended if and only if the runner has not failed and was, or can still be, forked |
| LifecycleTheorems.ExecFailureIsNamed | src/remote/start.rs:304-320 | While the directory is there, an exec failure that ran its course is resolved as that errno, or as unknown after a stamp or a signal to the runner, and never as a plain `exited(127)`; nothing else is ever resolved as one |
| LifecycleTheorems.MarkerDecides | src/remote/actions.rs:57-64 | A resolver that has read the status of an exec failure names it if and only if the directory is still there |
| LifecycleTheorems.ExecFailureAnswers | src/remote/actions.rs:57-92 | All answers for an exec failure whose command nobody signalled, with or without the directory; a plain `exited(127)` only without it |
| LifecycleCleaned.ExecFailureMisnamed | src/remote/actions.rs:57-64 | A reachable state in which nobody was signalled, `execvp` failed, and a resolver answers a plain `exited(127)` |
| LifecycleTheorems.KillKeepsTheTruth | src/remote/actions.rs:907-922 | No step of any `kill` replaces an `exited(N)` or `signaled(N)` |
| LifecycleTheorems.KilledMeansDead | src/remote/actions.rs:953-996 | After `Killed` the status is terminal and the command dead, even one that ignores SIGTERM, as long as the directory is there; without it the command is over unless the runner was signalled and a split resolver stamped |
| LifecycleCleaned.KilledAfterClean | src/remote/actions.rs:936-970 | A reachable state in which `kill` has answered `Killed` for an id that `start` returned, after a `clean`, and the command runs |
| LifecycleTheorems.NewbornOnlyStamped | src/remote/actions.rs:956-971 | With no pid recorded, `kill` stamps and answers `Killed` but signals nobody |
| LifecycleTheorems.KilledAloneExactly | src/remote/actions.rs:953-996 | For every reachable state that says running, the exact condition under which a `kill` left alone has a dead command behind its `Killed` |
| LifecycleRace.KilledButAlive | src/remote/actions.rs:977-988 | A reachable state, the launcher having died before it recorded the command, in which `kill` answers `Killed` and the command survives |
| LifecycleTheorems.CleanSparesTheLiving | src/remote/actions.rs:1050-1055 | `clean` removes no newborn and no running command, unless the runner was signalled and a split resolver stamped |
| LifecycleTheorems.CleanTakesExactly | src/remote/actions.rs:1050-1055 | In every reachable state a command that is not over is taken if and only if its status file says unknown |
| LifecycleTheorems.SplitCleanSparesTheLiving | src/remote/actions.rs:1050-1055 | The same for a `clean` that resolved call by call among everything else |
| LifecycleCleaned.LivingCommandCleaned | src/remote/actions.rs:1050-1055 | A reachable state, after a `kill` and a late heal, in which `clean` takes a running command |
| LifecycleRace.TrueStatusOverwritten | src/remote/actions.rs:57-92 | A reachable state in which nobody was signalled, the command exited with 0, and the status says unknown |
| Observers.Managed.ResolveState | src/remote/actions.rs:56-93 | The answer is running if and only if the status says so and either no pid is recorded or a recorded process answers; a status is healed exactly if it says running and pids are recorded but none answers; file and answer then agree, and so does the next answer, but for an exec failure behind a healed status |
| Observers.RunningIsAttended | src/remote/actions.rs:70-91 | In every interleaving with an unsignalled runner a status that says running is attended, so there is nothing to heal |
| Observers.Managed.RecordKillOutcome | src/remote/actions.rs:907-922 | A terminal status is kept; a running or missing one becomes `exited(killed)`, and nothing else changes |
| Observers.Managed.CleanOne | src/remote/actions.rs:1045-1055 | A directory goes if and only if its status is terminal or unattended; then no recorded helper is left alive and the command is untouched; otherwise nothing changes |
| StdinPipes.WriteAllNonblocking | src/remote/actions.rs:721-763 | Success is the whole data, failure a proper prefix of it, for every schedule of short writes, signals and full pipes, and the failure's kind is that of the call it ended at |
| StdinPipes.FeedFifo | src/remote/actions.rs:240-251 | The same through the FIFO; without a reader nothing is written |
| StdinPipes.WriteStdin | src/remote/actions.rs:204-236 | `Written` counts all bytes and all of them are in the FIFO; a missing or finished process gets none, and is answered as such if and only if it is missing or finished; time runs out only on a full pipe |
| StdinPipes.RelayChunk | src/bin/rx.rs:635-657 | One buffer goes out in order and completely, or up to the event that ended it |
| StdinPipes.CopyLocalStdin | src/bin/rx.rs:615-659 | The client passes on a prefix of its input, all of it unless a call failed or the pipe broke, and counts what it passed |
| StdinPipes.PipeStdin | src/remote/actions.rs:827-897 | rxd passes on a prefix of what it reads, all of it if it exits 0; the holder is killed unless told otherwise |
| StdinPipes.PipeLocalStdin | src/bin/rx.rs:667-781 | `Written{n}` only if n is the input's length; then all n bytes are in the FIFO if and only if rxd's reads delivered them, in particular if none failed; whether the failure was the client's, the connection's or rxd's is exact when the client's side went well |
| StdinPipes.ReadErrorUnnoticed | src/remote/actions.rs:864-870 | A read error on rxd's side is printed as success without the bytes |
| Base64.Alphabet | src/lib.rs:12 | The 64 characters in their order |
| Base64.KnownTexts | src/lib.rs:114-121 | The vectors of section 10 of RFC 4648 |
| Base64.Encode | src/lib.rs:11-33 | The loop produces the quads of the standard alphabet, padded |
| Base64.Decode | src/lib.rs:37-88 | The loop and its four-byte buffer compute what the text without whitespace stands for, quad by quad, with the first flaw as the error |
| Base64.EncodedThen | src/lib.rs:11-88 | What follows whole quads is decoded after them, what follows a padded quad is not looked at |
| Base64.RoundTrip | src/lib.rs:11-88 | Decoding takes every encoded byte string back |
| Base64.WhitespaceIgnored | src/lib.rs:35-57 | ASCII whitespace anywhere changes nothing |
| Base64.LineFeedIgnored | src/lib.rs:35-57 | That is the line feed, space, tab, carriage return and form feed |
| Base64.EncodeBytes | src/lib.rs:100-108 | Clean text travels verbatim, and nothing else does |
| Base64.FieldRoundTrip | src/lib.rs:100-108 | No byte is lost in a text field, whatever counts as UTF-8, and clean text is the field |
| CachePaths.SafePathComponent | src/daemon/state.rs:59-73 | The loop computes the escaped name |
| CachePaths.ComponentSafe | src/daemon/state.rs:59-73 | It is one path component, never empty, `.` or `..` |
| CachePaths.KeptExactly | src/daemon/state.rs:65-70 | A name is kept as it is if and only if it has no other characters than the plain ones, and grows by two for each of those |
| CachePaths.UpwardsEscaped | src/daemon/state.rs:86-89 | `../` before a name becomes `c-..%2f` before it |
| CachePaths.ComponentInjective | src/daemon/state.rs:59-73 | It belongs to one name only |
| CachePaths.CacheFilesDistinct | src/daemon/state.rs:41-49 | Different hosts, processes or streams never share a cache file |
| CachePaths.BelowItsHost | src/daemon/state.rs:41-49 | A cache file lies below the directory of its own host and of no other |
| Paging.ReadOutput | src/remote/actions.rs:131-183 | The reply decodes to a prefix of the requested slice, not empty unless the slice is, with the stream's size; text without NUL is in it verbatim; the error cases are exactly the missing file, the impossible offset and the failed read |
| Paging.PagesInOrder | src/remote/actions.rs:161-182 | Pages read while the stream grows continue it in order without a gap, for every limit of at least 1 |
| Paging.PagesComplete | src/remote/actions.rs:161-182 | Once it has stopped growing, no more pages than bytes left give all of it |
| Daemon.State.HandleStart | src/daemon/server.rs:410-467 | Starting a process adds its status file and tracks it beside those tracked before; no cached stream changes |
| Daemon.State.HandleRead | src/daemon/server.rs:473-526 | From the cache or the remote, the reply decodes to a prefix of the slice of what the process has written, verbatim if that is text |
| Daemon.ReadCached | src/daemon/server.rs:486-507 | The bounded read of a cached file yields the same page, in the same encoding, as a remote read of those bytes, also when the seek fails |
| Daemon.State.Stream | src/daemon/stream.rs:46-97 | A stream thread continues its own cached file only, and keeps every cached stream a prefix of what was written; if nothing goes wrong and the process ends in time, the cached file is the whole stream |
| Daemon.History | src/daemon/server.rs:360-467 | Through any history of starts, stream connections, cleans and remote writing, every cached stream stays a prefix of what its process has written, nothing written is lost at the remote, and the last clean or start shows |
| Daemon.State.CleanLocal | src/daemon/server.rs:360-372 | Cleaning a host removes all its cached files and tracked processes, and nothing of any other host |
| Replica.Follow | src/remote/actions.rs:1065-1118 | What `follow` sends continues the stream from the offset without a gap; a complete end has sent all there is; and if the status becomes terminal, the stream stands still and calls enough follow, the end is complete |
| Replica.FollowOpen | src/remote/actions.rs:1093-1117 | The same for the loop with the file open, started at any moment; once the directory is gone it ends with a failed read or a broken connection only |
| Replica.Drain | src/remote/actions.rs:1095-1107 | The final drain goes on to the first empty read, and gets there if there are calls enough |
| Replica.Copy | src/daemon/stream.rs:72-89 | Each piece is appended in order, for every cut, read size, write failure and clean; it succeeds if and only if no read fails and everything that arrives can be written |
| Replica.RunFollow | src/daemon/stream.rs:46-97 | One connection keeps the copy a prefix; a successful one with a complete end holds the whole stream; one in which nothing goes wrong succeeds, and completely if the stream ends in time |
| Replica.StreamWithRetry | src/daemon/stream.rs:25-44 | So do any number of connections, each resuming where the file ends, and nothing is lost between them; done means complete unless the remote directory was gone or a read failed; with one good attempt at a finished process it is done and the copy is the stream |
| Replica.EndsWithoutTheTail | src/remote/actions.rs:1078-1081 | With the remote directory gone, the copy ends as done without its tail |
| Ephemeral.ReadTail | src/remote/actions.rs:439-461 | An answer not marked as truncated shows the whole stream if and only if the file is empty or can be opened and read through; text is shown verbatim |
| Ephemeral.ProcessDir.Complete | src/remote/actions.rs:294-334 | The directory is removed only with both streams within the limit, and then each was shown in full exactly if it was legible |
| Ephemeral.UnreadableOutputLost | src/remote/actions.rs:450-453 | A stream that cannot be opened is deleted unseen |

## Left out

- The lifecycle protocol is a transition system on values, because its content is the interleaving; `Observers` has its readers as methods on an object. Files of the directory other than status, pids and exec marker (command line, times, captured output) are not part of it, and neither are FIFO capacity and blocking writes: a writer may stop at any point.
- The removal of a directory, and the writing half of `status`, `list` and `wait`, act in one step in the lifecycle system; resolvers and `kill`s under way interleave call by call, and what a `clean` that resolved that way may rely on is `SplitCleanSparesTheLiving`.
- LifecycleTheorems.KilledMeansDead: says nothing about processes the command has moved out of its group, which the code does not signal.
- Install.InstallFile: does not promise an unchanged disk when removing the temporary file fails as well, because the code ignores that result; the target is unchanged all the same.
- Replica.StreamWithRetry: the back-off delays and the number of retries are not part of it; the list of attempts is.
- Daemon.State.HandleRead: file size, opening and reading are one step, so a clean between them is not modelled.
- Lengths: the totals of framing and of relayed stdin wrap at 64 bits as in the code; other byte counts are unbounded.
- Power loss and fsync durability, and user and group lookup.
- The mapping of I/O errors to codes and hints, retryability and exit codes: finite tables.
- JSON, taken as delivered whole or not at all; command-line parsing, output formatting, deployment and its retry, version checks, ssh error classification, host information, base-directory permission checks, daemon forking: no deep invariant.
- UTF-8 validation, a parameter of `EncodeBytes`.
