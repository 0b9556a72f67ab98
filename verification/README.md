# heliosAgent in Dafny

heliosAgent is a root daemon that serves a line-oriented JSON protocol with raw file bodies in the
same byte stream, one forked child per connection. This project models the part of it that has to
stay right under failures and concurrency, and proves what it keeps:

- **the stream** - which bytes are requests and which are bodies, in both directions, on every exit of
  every verb;
- **the files** - `write_file` and `put_file` as sequences of system calls that other children can
  interleave with and a crash can cut short, `get_file` and `read_file` as readers beside them;
- **the rights** - the reversible drop to a user around each file verb;
- **the gate** - where the secret comes from at startup, and what a request that does not hold it can do;
- **shutdown** - when the command runs, over connections, forks and failed forks;
- **search** - the shell command line that carries the pattern, and the scan of grep's output.

## How it is put together

The parts of the agent that change state step by step are classes with methods and loops: `Connection.Socket`
(the input, the output, the network breaking), `Kernel.Process` (credentials, files, system calls),
`Kernel.PrivGuard`, and `Agent.Server` (the gate, routing, the connection loop). A system call may fail for a
reason outside the model; `Process.faults` counts those failures, so a contract can say both what holds whatever
fails and what must happen when nothing does. `Process.calls` and `Process.commands` record the rights every call
was made with and every command given to the shell.

Before every call on the files other processes may run (`Process.Preempted`): any number of requests of other
children, crashes, and changes by commands. `Process.history` is the run of all of them that this process has met,
and every call of `write_file`, `put_file`, `get_file` and `read_file` is recorded in it as a step of
`WriterProtocol` or `ReaderProtocol`. So what is proved about runs in `Concurrency` is proved about these methods,
interleaved call by call with anything else; `Guarantees` says what that means for a request. For a process that is
`alone` the contracts say more: exactly what the files are afterwards, and when a request must succeed.

`Framing` defines what a byte stream means (`Served`, `ClientRead`), independently of the loop that consumes it,
`Answers` what a true answer to each verb is, `Sessions` how single turns add up to a connection, and `Daemon` how
connections add up to the daemon's life. `Fields` names the members of a request's line, and `Stream` and `Promises`
say what the stream and each verb come to in those terms alone, with the entries of passwd and literal values, apart
from the functions that the methods and their contracts share. `Limits` holds the runs that show where the guarantees end, and `Codecs` a
codec that meets what is assumed of the JSON library.

`dafny verify dfyconfig.toml` checks everything.

## What the proofs found

Where the code and its comments differ, the model follows the code.

- The comment above the guard says a failed drop leaves the process at root (Verbs.cpp:351). If `setegid` succeeds
  and `seteuid` is refused, the effective gid stays the user's for the rest of the connection; supplementary groups
  are never put back at all. `Kernel.LeftBy` is what a request leaves, `GidStays` says exactly for which accounts the
  gid can move, and `GroupsLeak` whose groups stay.
- `get_file` opens before it sizes, so that the advertised length matches the body (Verbs.cpp:813). Against the
  agent's own writers it always does (`GetIsSnapshot`). A `read` that fails part-way still returns "keep serving"
  (Verbs.cpp:846, 855), and then the client takes the next response for file content: `ClientReadsBack` shows that
  whole bodies are not only sufficient but necessary.
- `read_file` sizes by name before it opens (Verbs.cpp:413-425). A write in between can make it return neither the
  old nor the new version (`ReadCanTear`); what it does return is given exactly (`ReadIsCutSnapshot`). Its size is
  also a 32-bit number, so even in quiet a file of 4 GiB or more does not come back whole (`WriteThenRead`).
- Writes are atomic at a target if and only if its path holds no NUL and is not itself the temp name of such a
  target (`TargetsExactly`). Paths reach the kernel as C strings (Verbs.cpp:523, 534, 574), so with a NUL the temp
  that is opened is the target itself, and shows there unfinished (`NulShowsTemp`); the JSON library is not part of
  this model, and whether it delivers a NUL is left open. A request may also name another writer's temp as its
  target: that writer then reports success with the other's content in place (`TempCanBeStolen`). Among ordinary
  targets, exactly the temp names are not written atomically (`AtomicExactlyOffTemps`).
- The guard regains root before it restores the gid (Verbs.cpp:372). The other order would do as well for a daemon
  whose real or saved gid is the one to restore, and fail for any other (`RestoreOrder`).
- `list_dir` answers only for a directory, `stat` for any name (`Metadata`).
- When `fork` fails, the daemon serves inline, and a shutdown asked for there is never cleared: every later
  connection ends in the shutdown command (`FlagIsNeverLowered`).
- A file name with a colon cannot be told from grep's own separators (`PrintScanRoundTrip`).
- PROTOCOL.md says a protocol error never drops the connection; a `put_file` header without a usable length
  does (Verbs.cpp:646, 655, 660), as the comment in Verbs.h says.

## Model

| member | source | states |
|---|---|---|
| Framing.FramesAreTaken | HeliosAgent.cpp:293-356 | A stream of well-formed requests, bodies holding any bytes, means exactly those requests in order, each with its own body, blank lines skipped, up to the first that ends the connection; whatever follows is taken the same way. What well-formed means is in FramesByFields |
| Framing.ClientReadsBack | Verbs.cpp:826-855 | A client that reads a line and then the bytes it promises recovers the sequence of replies, ids as they print, if and only if every promised body was sent whole |
| Framing.ReadExactly | Dispatch.cpp:130-137 | What it recovers is the very sequence that was sent if and only if every id prints exactly |
| Codecs.FaithfulCodec | PROTOCOL.md:11-29 | What is assumed of the JSON library can be met: a codec exists that prints every response without a newline, reads it back, and carries every double exactly |
| Agent.Server.HandleConnection | HeliosAgent.cpp:290-366 | The whole connection, against the meaning of the stream: exactly its requests taken, each with its own body; one reply each with its id; a history of stages in which each begins where the one before ended and every answer is true of what happened; a client reads every reply back exactly if no read failed, and certainly if no call did; every call made for one admitted request in its user's rights; the log ending in close and then the shutdown command exactly if the flag is up; and nothing done at all if no request was admitted |
| Agent.Server.Turn | HeliosAgent.cpp:293-356 | One turn keeps every part of that bookkeeping and consumes input |
| Agent.Server.ServeOne | HeliosAgent.cpp:297-355 | A turn consumes the line and its body and no more, stops exactly where the stream's meaning says unless the network broke, and leaves a truthful record of that line, that body, and the process before and after |
| Agent.Server.ServeLine | HeliosAgent.cpp:322-355 | A request line is streamed or dispatched, answered once, and only an admitted shutdown raises the flag, after which nothing is served |
| Agent.Server.StripEnd | HeliosAgent.cpp:305-312 | The loop removes exactly the trailing newlines and carriage returns |
| Agent.Server.HandleStreaming | Dispatch.cpp:191-242 | Streaming verbs are exactly those it does not hand back; on the way out the input is at the first byte after the body and one reply is sent, or the connection is to close and one of the stated reasons holds |
| Agent.Server.TurnAway | Dispatch.cpp:223-231 | Not admitted: an error line, a close, nothing drained and nothing touched |
| Agent.Server.Upload | Dispatch.cpp:233-235 | put_file as the connection sees it |
| Agent.Server.Download | Dispatch.cpp:236-238 | get_file as the connection sees it |
| Agent.Server.Dispatch | Dispatch.cpp:114-180 | Line verbs: id echoed, a request without a verb or not admitted changes nothing, and the answer is true of the effect |
| Agent.Server.RunVerb | Dispatch.cpp:155-176 | Behind the gate: each verb's answer and effect, the rights its calls were made with, and the command it ran, if any |
| Agent.Server.RunFileVerb | Dispatch.cpp:162-170 | read_file, write_file, stat and list_dir: an answer true of the files, in the user's rights or not at all; with no failed call, success exactly if the user may and the target allows |
| Agent.Server.SecretEquals | Dispatch.cpp:73-86 | The accumulator that never exits early decides equality of the two strings |
| Stream.UploadTakesItsBody | Verbs.cpp:657-744 | After an admitted upload whose "bytes" has the whole part n, exactly n bytes are its body, whatever they are, and the next request begins after them |
| Stream.FramesByFields | Verbs.cpp:641-662 | The well-formed frames of the stream theorem, by the members of their lines: an admitted upload that tells its length has that many bytes after it, any other line none |
| Stream.UploadCutOff | Verbs.cpp:718-724 | An upload whose bytes do not all come is the last request |
| Stream.NoLengthNoMore | Verbs.cpp:641-661 | A streaming request that is not admitted, or an upload without path, number or a length of at least 0, is the last, and no byte after it is taken for anything |
| Stream.DownloadHasNoBody | HeliosAgent.cpp:322-332 | After an admitted get_file comes the next request, whether or not a shutdown is pending |
| Stream.OtherLines | HeliosAgent.cpp:335-355 | Any other line is a request of its own, and the last one exactly if the flag is up or it is an admitted "verb":"shutdown" |
| Stream.LineEndings | HeliosAgent.cpp:303-316 | Carriage returns before a newline do not count, and blank lines are no requests |
| Stream.LetInIsAdmitted | Dispatch.cpp:92-108 | The gate by the member "auth": everyone if open, else who sends the secret it holds |
| Promises.VerbsByName | Dispatch.cpp:155-176 | Each of the eleven names reaches its own verb, and nothing else does |
| Promises.EchoesTheId | Dispatch.cpp:130-137 | The id of every answer is the number the request sends as "id", or 0 |
| Promises.TurnsAway | Dispatch.cpp:119-153 | A line that is no object or is not let in changes nothing, and is told which: no object, no verb, or unauthorized |
| Promises.OnlyAnswers | Dispatch.cpp:140-176 | hello and sysinfo answer ok, shutdown is acknowledged, a missing and an unknown verb are errors of their own, and none of them does anything else to the process |
| Promises.OwnRights | Verbs.cpp:325-335 | Without a user, or with an empty one, every call is made with the credentials of the process itself |
| Promises.NoSuchUser | Verbs.cpp:336-340 | A name whose C string passwd does not have: no call, no change of any kind, and an error from every verb that has a user |
| Promises.RightsOfTheUser | Verbs.cpp:341-366 | A name that passwd has: every call with exactly that entry's uid, gid and groups; if the process is not root or an id is refused, an error and nothing done |
| Promises.NamesTheUser | Verbs.cpp:498-508 | Such errors name the user, and say whether it is unknown or cannot be run as |
| Promises.NamesTheField | Verbs.cpp:641-661 | A request without the members its verb needs is answered by an error for the first one it lacks, and nothing is done |
| Promises.LeavesWhatWasAsked | Verbs.cpp:553-591 | A committed write leaves the data asked for, with the low twelve bits of "mode", or else of the old file's mode, or else 0644; owned by the old file's owner if root replaces a file, else by the user or the process; and the answer says path, length, that mode, and whether the file is new |
| Promises.WritesExactlyIf | Verbs.cpp:696-711 | In quiet a write succeeds exactly if the rights can be had, no directory or device is at the path, and path + ".helios-tmp-" + pid is free; otherwise nothing is different, and the error says which it was |
| Promises.SendsTheFile | Verbs.cpp:813-855 | In quiet get_file sends length, mode and exactly the bytes of the regular file at its path, or an error and no body |
| Promises.ReadsTheFile | Verbs.cpp:412-463 | In quiet read_file sends the regular file at its path in base64, cut at its length modulo 4294967296 |
| Promises.LooksThere | Verbs.cpp:931-1002 | In quiet stat answers for any name that exists and list_dir for a directory, if the rights can be had, and each is an error otherwise |
| Promises.RunsTheCommand | Verbs.cpp:200-248 | run_command runs "cmd" as it stands, once, if it names no user or one that passwd has |
| Promises.SearchesAsAsked | Verbs.cpp:1062-1215 | search runs one command, which the shell reads word for word as grep -rHn, -i exactly for "ignore_case": true, the pattern after -e and the path, or ".", after --; it reports the first matches of the output up to "max", or 1000 if that is missing or below 1, and is ok exactly for a status below 2 |
| Daemon.RunsForShutdownOnly | Dispatch.cpp:159-160 | By the members of the requests: the shutdown command is in a connection's log exactly if it, or an earlier inline one, took a request that was let in and whose verb is "shutdown" |
| Octets.XorZero | Dispatch.cpp:83 | Two octets XOR to zero exactly when they are the same |
| Agent.Server.AuthOk | Dispatch.cpp:92-108 | Admitted exactly when open, or holding the configured secret; with no secret nobody is |
| Agent.Server.SetSecret | Dispatch.cpp:54-63 | An absent or empty secret leaves the gate with none |
| Agent.Server.SetOpen | Dispatch.cpp:65-69 | Only the open posture changes |
| Writes.StreamDrain | Verbs.cpp:620-630 | Consumes exactly the given number of bytes, or fails because the input ended or the network broke |
| Writes.WriteAll | Verbs.cpp:542-551 | However little each write takes and whatever runs in between, the loop makes write steps until all of the data is in the temp, or a call failed |
| Writes.OpenTemp | Verbs.cpp:696-711 | stat, refusal of what is not a regular file, exclusive creation; alone and with no failed call it opens exactly if the temp name is free and the target absent or regular |
| Writes.Settle | Verbs.cpp:747-755 | Owner and then mode, the owner only on overwrite and by root: the inode is final, setuid and setgid bits included; its mode is the low twelve bits of the mode asked for, else of the old file, else 0644 |
| Writes.Install | Verbs.cpp:747-762 | Attributes, then the rename: it is the commit of the whole file, or the temp is unlinked; alone, all or nothing, and only a failed call or a directory in the way prevents it |
| Writes.Abandon | Verbs.cpp:544-547 | After an error the temp is unlinked, and the write has ended; alone, every entry and inode is as before |
| Writes.StreamBody | Verbs.cpp:713-744 | The chunk loop stores exactly the body, or reports how much is left unread after a disk error, or the socket died; a failed body has ended the write |
| Writes.DrainAndFail | Verbs.cpp:681-710 | An error after the length is known still consumes exactly the body before it is reported |
| Writes.PutFileAs | Verbs.cpp:696-775 | In any company a run of the writer protocol to its end: the last step commits the whole body, never one that was cut off, or nothing was committed; the stream re-framed on every exit that keeps the connection |
| FileVerbs.PutFileScoped | Verbs.cpp:679-776 | The same with the user found, the rights dropped and restored on every exit; a name passwd does not have changes nothing, one it has makes every call in the rights of its entry, and an entry that cannot be taken on makes none; the error says which; with no failed call it succeeds exactly if the user may and the target allows |
| FileVerbs.PutFile | Verbs.cpp:638-776 | The whole verb: a header without path, number or a length of at least 0 closes, says which, and touches nothing; otherwise the connection goes on exactly after the declared bytes, and the rest is as above |
| Writes.WriteFileAs | Verbs.cpp:520-591 | The same for the whole-buffer write; the answer says which it was |
| FileVerbs.WriteFile | Verbs.cpp:475-592 | The same with the required fields, the user and the guard: a missing field, a name passwd does not have, or an entry that cannot be taken on is an error of its own, and nothing is written; calls are made in the rights of the entry |
| Reads.Slurping | Verbs.cpp:432-445 | The read loop is a run of the reader protocol to its end, or a call failed; alone it returns the file up to the size |
| Reads.ReadFileAs | Verbs.cpp:412-463 | The answer is what the run of the reader protocol read, with the mode the stat saw; alone, the file cut at its size modulo 2^32 |
| FileVerbs.ReadFile | Verbs.cpp:387-464 | The same with the user and the guard; with no failed call it answers exactly if the user may and the target is a regular file |
| Reads.SendFile | Verbs.cpp:838-853 | The body sent is what was read, as long as promised unless a read failed or found less, or the socket died |
| Reads.GetFileAs | Verbs.cpp:813-855 | Header and body as the run of the reader protocol saw and read them, or one error line; alone, of the file its path names |
| FileVerbs.GetFile | Verbs.cpp:784-856 | The same with the user and the guard |
| FileVerbs.Metadata | Verbs.cpp:907-1002 | stat and list_dir keep the same run-as rules around their look at the files, and with no failed call answer exactly if the user may and the name exists, for list_dir as a directory |
| FileVerbs.EnterScope | Verbs.cpp:686-694 | Either the process now has exactly the user's effective ids and groups, or the request is refused; with no failed call, the former exactly if it may |
| FileVerbs.LeaveScope | Verbs.cpp:370-375 | Whatever exit is taken, the credentials are back as far as the code puts them back, and no further |
| Kernel.PrivGuard.Drop | Verbs.cpp:360-366 | Groups, gid, uid in this order; what each failure leaves behind, exactly |
| Kernel.PrivGuard.Restore | Verbs.cpp:370-375 | Effective uid 0 and the saved effective gid are back |
| Kernel.RestoreOrder | Verbs.cpp:370-375 | In the order used both ids always come back; in the other the gid does exactly if it is the real or saved one, or was the user's own, or the user is root |
| Kernel.Process.Preempted | HeliosAgent.cpp:701-732 | Before a call, any run of other processes may have taken place; none if this one is alone |
| Sessions.GidStays | Verbs.cpp:351-375 | Serving a request may leave another effective gid if and only if the process is root and some account has another gid, which the kernel accepts, and a uid it refuses |
| Sessions.CredsKept | Verbs.cpp:366-375 | Over a whole connection, every request begins and ends with the first effective uid, and with the first effective gid unless some request tries such an account; if one does and no call fails, the gid does move |
| Sessions.CallsBelong | Verbs.cpp:494-508 | Every file-system call of a connection was made while serving one admitted request, in the rights of its user |
| Sessions.FaultsAddUp | Verbs.cpp:838-853 | A connection without a failed call is one in which no request had one |
| Sessions.GroupsLeak | Verbs.cpp:360-375 | After a connection of a root process with no failed call, the supplementary groups are those of the last user it tried |
| Sessions.NothingAdmitted | Dispatch.cpp:150-153 | Any number of requests that are not admitted leave files, credentials, calls and commands as they were |
| Sessions.ReadBack | HeliosAgent.cpp:323-349 | The client reads back every reply of a connection if and only if no file being sent failed to be read; with no failed call that is so even with other requests at the files, as long as they have ordinary targets and none of the files sent is a temp |
| WriterProtocol.AllOrNothing | Verbs.cpp:520-578 | Every uninterrupted run of a writer, whatever fails, ends with the complete file at the target and nothing else changed, or with every entry and inode as it was |
| TempNames.TempNameInjective | Verbs.cpp:532 | Two writers have the same temp name exactly when they have the same target and the same pid |
| TempNames.NameOfTemp | Verbs.cpp:532-534 | What the kernel sees of a temp name: all of it, or, with a NUL in the path, the same as of the target |
| TempNames.TempsShared | Verbs.cpp:532-534 | Exactly which two writers share the temp file the kernel opens |
| Concurrency.InvHolds | HeliosAgent.cpp:701-732 | In every interleaving of requests with ordinary targets, with crashes and reused pids, each open temp is private to its writer and holds what has been written, and what readers have open never changes |
| Concurrency.StepRefines | Verbs.cpp:530-578 | One system call of any process changes what a name shows only if it is a writer's rename onto that name, and then to the complete file |
| Concurrency.RunsAreAtomic | Verbs.cpp:704-762 | After any run a name shows the last committed write whole, with final mode and owner, or its original file |
| Concurrency.SuccessWasCommitted | Verbs.cpp:574-591 | A writer that reports success committed this very job at a moment since its request began, and its target then named the whole payload |
| Concurrency.FailureCommitsNothing | Verbs.cpp:574-578 | A writer that has not succeeded has committed nothing since its request began, whatever else runs |
| Concurrency.TempIsGone | Verbs.cpp:574-578 | However a writer ends short of a crash, the temp it opened is gone |
| Concurrency.GetIsSnapshot | Verbs.cpp:813-855 | In every interleaving get_file sends exactly one whole version, one its path named while the request was being served, advertises its length, and never reads short |
| Concurrency.ReadIsCutSnapshot | Verbs.cpp:412-446 | read_file returns a version its path named while the request was being served, cut at the 32-bit size of the file the path named at that moment or an earlier one of the request; that is the whole version exactly if the size was not smaller |
| Concurrency.UnfinishedIsPrivate | Verbs.cpp:532-551 | While a write is not finished its bytes are in one file only, named path + ".helios-tmp-" + pid, of mode 0600 and its writer's ids |
| Concurrency.TargetSeen | Verbs.cpp:522-523 | The old file whose mode and owner a writer keeps was a regular file, and at its path at a moment since its request began |
| Concurrency.AnyInterlude | HeliosAgent.cpp:701-732 | The pauses in which others run exclude nothing: every continuation of a run without this process is one |
| Limits.AtomicExactlyOffTemps | Verbs.cpp:532 | The names that every run of requests with ordinary targets keeps atomic are exactly those that are not the temp of such a target |
| Limits.TempIsVisible | Verbs.cpp:534 | A run in which such a temp name shows an incomplete file |
| Limits.TargetsExactly | Verbs.cpp:532-534 | A target is written atomically in every run, beside any number of writers with ordinary targets, if and only if its path holds no NUL and is not the temp name of an ordinary target |
| Limits.NulShowsTemp | Verbs.cpp:534 | With a NUL in the path, a run in which the target shows an unfinished file |
| Limits.OtherShowsTemp | Verbs.cpp:534 | With another's temp as the target, a run in which it shows an unfinished file |
| Limits.TempCanBeStolen | Verbs.cpp:574 | A run in which a writer reports success, has committed nothing of its own, and its target holds what another renamed onto its temp |
| Limits.ReadCanTear | Verbs.cpp:413-425 | A run of ordinary requests in which read_file returns neither the old version nor the new one |
| Guarantees.WriteIsAllOrNothing | Verbs.cpp:520-591 | put_file and write_file in any company: at the end of one that succeeds its target names the whole content with its final mode and owner; one that fails has committed nothing |
| Guarantees.DownloadIsSnapshot | Verbs.cpp:813-855 | get_file in company of requests with ordinary targets: header and body are of exactly one version, which the path named during the request, and the body is whole unless a call failed |
| Guarantees.ReadIsCut | Verbs.cpp:412-446 | read_file in the same company: a version its path named during the request, cut at the 32-bit size of the one it named at that moment or before |
| RoundTrips.StreamingRefinesWhole | Verbs.cpp:713-768 | put_file in chunks and write_file of the same content from the same state, alone: with no failed call both succeed, with the same files and the same result, or both fail, with an error and nothing changed |
| RoundTrips.PutThenGet | Verbs.cpp:713-768 | A successful upload is downloaded back byte for byte unless a read fails; and if no call fails, both users may be run as and the target allows it, both do succeed |
| RoundTrips.WriteThenRead | Verbs.cpp:425-448 | A successful write is read back exactly if its length is below 2^32; and if no call fails, both users may be run as and the target allows it, both do succeed |
| Shell.ShellQuote | Verbs.cpp:883-898 | In front of anything, the quoted value lexes to the value and nothing else |
| Shell.SingleQuotes | Verbs.cpp:883-898 | To the shell, every character but a single quote stands for itself between single quotes, and without the second quote there is no command |
| Shell.AssembleCommand | Verbs.cpp:1134-1140 | For a plain grep path, the shell reads exactly the intended words and the one redirection if pattern and path have no NUL, and no command at all if one has |
| Search.ScanLine | Verbs.cpp:1152-1180 | A line is a match exactly if it holds two colons; then file, colon, number, colon and text make up the line, with no colon in the first two, and the line number is atoi of the number |
| Search.ScanOutput | Verbs.cpp:1147-1189 | The index scan yields the first matches up to the cap, counts them, and reports truncation exactly when there were more; the matches are what those lines of the output spell that hold two colons, in order, and no others |
| Search.MatchesAreLines | Verbs.cpp:1148-1189 | The matches of an output are numbered by its lines with two colons, in order |
| Search.SpellsOne | Verbs.cpp:1155-1169 | A line that can be read as file:number:text, with no colon in the first two, is that match and no other |
| Search.AtoiReads | Verbs.cpp:1179 | After white space, a sign and digits are read as a number in base ten, and what follows is left |
| Search.MatchesAreClean | Verbs.cpp:1159-1176 | No reported file name holds a colon or newline, no text a newline, whatever grep printed |
| Search.PrintScanRoundTrip | Verbs.cpp:1153-1187 | Printing matches as file:line:text lines and scanning gives them back if and only if names and texts are free of the separators |
| Search.AtoiOfDecimal | Verbs.cpp:1179 | atoi undoes the decimal printing of line numbers |
| Agent.Server.SearchFiles | Verbs.cpp:1059-1215 | search: required pattern; one command run, which the shell reads as the intended grep; capped matches of what that command printed, only for exit status 0 or 1; ok unless grep failed |
| Startup.StripBanner | HeliosAgent.cpp:431-455 | The pointer scan of the banner computes its line-wise meaning |
| Startup.BannerLines | HeliosAgent.cpp:431-455 | What the banner is, line by line: lines of blanks and lines that begin with # after blanks go, then the blanks before anything else |
| Startup.PayloadShape | HeliosAgent.cpp:440-454 | What is left starts with neither a blank, a comment nor a newline, unless only blanks are left |
| Startup.PayloadIdempotent | HeliosAgent.cpp:431-455 | Stripping a banner twice is stripping it once |
| Startup.LoadSecretFile | HeliosAgent.cpp:383-498 | A secret file says something only if it is readable and what follows its banner parses to an object; then the posture is open exactly for "allow_open": true, and the secret is its "secret", or empty |
| Startup.ConfigureGate | HeliosAgent.cpp:547-586 | main leaves the server open exactly by -O or, if neither -s nor HELIOS_SECRET gives a secret, by "allow_open": true in the file of -S, else of HELIOS_SECRET_FILE, else /etc/helios/helios.json; its secret is the non-empty one of -s, else of HELIOS_SECRET, else that file's, as a C string |
| Startup.FirstOfIsHighest | HeliosAgent.cpp:531-533 | The secret is the highest source that has one; there is none exactly if all are empty |
| Startup.AdmittedExactly | HeliosAgent.cpp:547-586 | Fail closed: after startup a request is admitted exactly if -O was given, or the file that was read says "allow_open": true, or its "auth" is the one secret that startup found |
| Startup.BrokenFileDeniesAll | HeliosAgent.cpp:568-584 | A missing or broken file, with no other secret and no -O, admits nothing |
| Daemon.ServeClient | HeliosAgent.cpp:358-365 | One connection, in whichever process serves it, is a visit: requests as its input means, a truthful history, and a log that ends as it should |
| Daemon.AcceptOne | HeliosAgent.cpp:703-729 | A child works on a copy of the daemon's state, so only a visit served inline changes the daemon's flag, log or credentials |
| Daemon.AcceptLoop | HeliosAgent.cpp:701-732 | Over any sequence of clients and any failures to fork, the daemon's life is a history of visits, its own log is that of the inline ones, and each log holds the shutdown command exactly if that connection asked, or an earlier inline one did |
| Daemon.LogOrder | HeliosAgent.cpp:335-365 | In a connection's log the command comes last, after the close; if the connection asked, the last things before the close are that request and its answer, so nothing is served in between |
| Daemon.RunsExactlyIfAsked | HeliosAgent.cpp:358-365 | In every history, the command is in a connection's log exactly if an admitted request on it asked, or one on an earlier connection served inline |
| Daemon.FlagIsNeverLowered | HeliosAgent.cpp:726-728 | After one inline shutdown every later connection's log ends in the command |
| Daemon.IdsAreKept | Verbs.cpp:370-375 | Every connection begins with the effective uid the daemon started with, and with its effective gid if no account can move it |
| Daemon.GroupsAreLeft | Verbs.cpp:360-375 | After an inline connection of a root daemon with no failed call, the next begins with the groups of the last user it tried; a forked one leaves the groups alone |
| Daemon.StartAndServe | HeliosAgent.cpp:547-732 | From the command line to the last connection, only a request the resolved gate admits does anything; with no open posture and no secret from any source, no process is changed and no command run, whatever clients send |

## Left out

- The JSON parser and printer and the base64 codec: parameters of the model; base64 is taken as invertible and a printed response as free of newlines.
- Error texts: an error response carries a kind, not the wording or the system's error string.
- hello and sysinfo contents, and the metadata that stat and list_dir report: only that they answer ok, or what stands in the way, and touch no file.
- run_command: its effect on the files is arbitrary, the user it runs as is not modelled, and it is absent from the interleaving theorems.
- When a request must succeed while others are at the files: only for a process that is alone.
- What a child has done is not carried into the history its parent goes on with, which continues in any way.
- The group of a new file is the process's effective gid; file systems that give it the directory's group are not modelled.
- Integer widths: converting a number beyond the range of `long` is undefined in C++ and is not modelled, nor is atoi beyond `int`.
- Failures of fchown, fchmod, unlink and close, whose results the code ignores: they succeed.
- Symbolic links, umask (the temp is created with mode 0600 exactly), durability across a power loss: a crash stops a process between two calls.
- Guarantees.WriteIsAllOrNothing, DownloadIsSnapshot and ReadIsCut: only among requests with ordinary targets; `Limits` shows what goes wrong among others.
- Partial transfers before an exception: after one the connection only closes, so what was read or sent is left open.
- Sockets, signals, daemonizing, the pidfile, logging and option parsing.
- search timeouts: grep's exit status and output are arbitrary.
- The shell lexer does not cover double quotes, `$`, backquotes or here-documents, none of which the command contains.
