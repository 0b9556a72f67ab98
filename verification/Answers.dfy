/** Who is admitted, and what a true answer to each verb says. */
module Answers {
  import opened Base
  import opened FileSystem
  import opened WriterProtocol
  import opened Concurrency
  import opened Framing
  import opened Kernel
  import opened Requests
  import opened Writes
  import opened Reads
  import opened FileVerbs
  import Search
  import Shell

  /** Who may be served: everyone, or the holders of a secret, or (without one) nobody. */
  datatype Gate = Gate(open: bool, secret: Option<Text>)

  predicate Admits(g: Gate, req: Request) {
    g.open || (g.secret.Some? && FindText(req, "auth") == g.secret)
  }

  function SessionOf(codec: Codec, g: Gate, stopping: bool): Session {
    Session(codec.parse, (req: Request) => Admits(g, req), stopping)
  }

  /** The line is an admitted request. */
  predicate AdmittedLine(parse: Text -> Parsed, g: Gate, line: Text) {
    parse(line).Object? && Admits(g, parse(line).req)
  }

  /** The line is an admitted shutdown request. */
  predicate Asks(parse: Text -> Parsed, g: Gate, line: Text) {
    AdmittedLine(parse, g, line) && VerbOf(parse(line).req) == ShutdownVerb
  }

  predicate IsStreaming(parse: Text -> Parsed, line: Text) {
    parse(line).Object? && (VerbOf(parse(line).req) == PutFileVerb || VerbOf(parse(line).req) == GetFileVerb)
  }

  /** Why a line is not served. The gate is asked only once there is a verb. */
  function Denial(parsed: Parsed): Problem {
    if !parsed.Object? then Protocol
    else if VerbOf(parsed.req) == NoVerb then NoVerbGiven
    else Unauthorized
  }

  // ---------------------------------------------------------------- what an answer says

  /** The circumstances a request is served in. */
  datatype Setting = Setting(codec: Codec, gate: Gate, grepBin: Text, pid: nat, passwd: map<Text, Account>,
                             validIds: set<int>, alone: bool)

  /** One request served: its line and body, the process before and after, the reply that went out whole, if one
      did, the record of its write, if it was one, and whether a read of the file being sent failed. */
  datatype Stage = Stage(frame: Frame, before: World, after: World, reply: Option<Reply>, log: WriterLog,
                         readFailed: bool)

  /** A call failed for an outside reason. */
  predicate Faulty(t: Stage) {
    t.after.faults != t.before.faults
  }

  function NewOf(before: seq<Reply>, after: seq<Reply>, broken: bool): Option<Reply> {
    if !broken && |after| > |before| then Some(after[|before|]) else None
  }

  function ContentOf(codec: Codec, req: Request): Text {
    match FindText(req, "content") case Some(t) => codec.fromBase64(t) case None => []
  }

  /** The write a stage is about, run with the rights of the user or of the process itself. */
  function JobFor(c: Setting, req: Request, payload: Text, t: Stage): Job {
    JobOf(c.pid, req, payload, PrincipalOf(c.passwd, req), t.before.creds)
  }

  /** What is wrong with an admitted request before anything is tried. */
  function ObstacleOf(c: Setting, req: Request, t: Stage): Option<Problem> {
    var p, own := PrincipalOf(c.passwd, req), t.before.creds;
    match VerbOf(req)
    case NoVerb => Some(NoVerbGiven)
    case OtherVerb => Some(NoSuchVerb)
    case WriteFileVerb => Hindrance(WriteProblem(req), p, own, c.validIds)
    case PutFileVerb => Hindrance(UploadProblem(req), p, own, c.validIds)
    case GetFileVerb | ReadFileVerb | StatVerb | ListDirVerb => Hindrance(PathProblem(req), p, own, c.validIds)
    case SearchVerb => if FindText(req, "pattern").None? then Some(BadPattern) else None
    case RunCommandVerb => CommandProblem(req, p)
    case HelloVerb | SysInfoVerb | ShutdownVerb => None
  }

  /** put_file: all of the body installed and said so, or nothing changed and an error said so; and with no
      outside failure and nothing else at the files, the former exactly if the user may and the target allows it. A
      body that did not arrive whole is never installed, answered or not. */
  ghost predicate PutTruth(c: Setting, req: Request, t: Stage) {
    match PutBytes(req)
    case None => t.after == t.before && !t.log.ok
    case Some(n) =>
      var j := JobFor(c, req, t.frame.body, t);
      && Wrought(t.before.history, t.after.history, c.alone, j, t.log) && (t.log.ok ==> |t.frame.body| == n)
      && (t.reply.Some? ==> |t.frame.body| == n && Reports(t.reply.value.resp, IdOf(req), j, t.log)
                            && (c.alone && !Faulty(t) ==> Settles(j, t.before.fs, ObstacleOf(c, req, t), t.log,
                                                                  t.reply.value.resp, IdOf(req))))
  }

  ghost predicate WriteTruth(c: Setting, req: Request, t: Stage) {
    var j := JobFor(c, req, ContentOf(c.codec, req), t);
    && Wrought(t.before.history, t.after.history, c.alone, j, t.log)
    && (t.reply.Some? ==> Reports(t.reply.value.resp, IdOf(req), j, t.log))
    && (c.alone && !Faulty(t) ==> Decided(j, t.before.fs, ObstacleOf(c, req, t).None?, t.log))
    && (c.alone && !Faulty(t) && t.reply.Some? ==>
          Settles(j, t.before.fs, ObstacleOf(c, req, t), t.log, t.reply.value.resp, IdOf(req)))
  }

  /** In quiet a file is sent exactly if nothing is wrong with the request and its path names one. */
  predicate FileAnswer(c: Setting, req: Request, t: Stage, r: Response, isFile: bool) {
    && isFile == (ObstacleOf(c, req, t).None? && IsFile(NodeAt(t.before.fs, req)))
    && (ObstacleOf(c, req, t).None? ==> NoFile(r, IdOf(req), NodeAt(t.before.fs, req)))
  }

  ghost predicate GetTruth(c: Setting, req: Request, t: Stage) {
    && LooksOn(t.before.history, t.after.history, c.alone)
    && (t.reply.Some? ==>
          && Sent(t.before.history, t.after.history, c.pid, t.reply.value, IdOf(req), PathOf(req), t.readFailed,
                  Faulty(t))
          && (c.alone ==> GetAnswer(t.reply.value, IdOf(req), PathOf(req), NodeAt(t.before.fs, req), t.readFailed))
          && (c.alone && !Faulty(t) ==> FileAnswer(c, req, t, t.reply.value.resp, t.reply.value.resp.Sending?)))
  }

  ghost predicate ReadTruth(c: Setting, req: Request, t: Stage) {
    && LooksOn(t.before.history, t.after.history, c.alone)
    && (t.reply.Some? ==>
          && Slurped(t.before.history, t.after.history, c.pid, t.reply.value.resp, IdOf(req), PathOf(req), c.codec)
          && (c.alone ==> ReadAnswer(t.reply.value.resp, IdOf(req), PathOf(req), NodeAt(t.before.fs, req), c.codec))
          && (c.alone && !Faulty(t) ==> FileAnswer(c, req, t, t.reply.value.resp, t.reply.value.resp.Contents?)))
  }

  /** stat answers for a name that exists, list_dir for a directory. */
  ghost predicate LookTruth(c: Setting, req: Request, t: Stage) {
    var there := Shows(t.after.fs, PathOf(req), VerbOf(req) == ListDirVerb);
    && LooksOn(t.before.history, t.after.history, c.alone)
    && (t.reply.Some? ==>
          && (t.reply.value.resp.Answered? ==> there && t.reply.value.resp == Answered(IdOf(req), true))
          && (!Faulty(t) ==> t.reply.value.resp.Answered? == (ObstacleOf(c, req, t).None? && there))
          && (!Faulty(t) && ObstacleOf(c, req, t).None? && !there ==>
                t.reply.value.resp == Failed(IdOf(req), SystemError)))
  }

  /** One more command was run. */
  predicate OneCommand(before: seq<Command>, after: seq<Command>) {
    |after| == |before| + 1 && after[..|before|] == before
  }

  /** search: one command, which the shell reads as the intended grep, and an answer made of what it printed: the
      first matches up to the cap, and ok unless grep failed. Without a pattern, an error and no command. */
  predicate SearchTruth(c: Setting, req: Request, t: Stage) {
    if FindText(req, "pattern").None? then
      t.after.commands == t.before.commands
    else
      && OneCommand(t.before.commands, t.after.commands)
      && var ran := t.after.commands[|t.before.commands|];
         SearchCommand(ran.text, c.grepBin, req) && (t.reply.Some? ==> SearchAnswer(t.reply.value.resp, req, ran))
  }

  predicate SearchAnswer(r: Response, req: Request, ran: Command) {
    var all := if ran.status <= 1 then Search.AllMatches(ran.output) else [];
    && r.Found? && r.exitCode == ran.status && r.ok == (ran.status < 2) && r.count == |r.matches|
    && r.matches == all[..Min(Search.Cap(req), |all|)] && (r.truncated <==> |all| > Search.Cap(req))
  }

  /** run_command: the command given is run, once, unless it is missing or its user is unknown. */
  predicate RunTruth(c: Setting, req: Request, t: Stage) {
    if CommandProblem(req, PrincipalOf(c.passwd, req)).Some? then t.after == t.before
    else
      && OneCommand(t.before.commands, t.after.commands)
      && t.after.commands[|t.before.commands|].text == FindText(req, "cmd").value
      && t.after == t.before.(fs := t.after.fs, commands := t.after.commands, history := t.after.history)
      && (t.reply.Some? ==> t.reply.value.resp == Answered(IdOf(req), true))
  }

  /** An admitted request: the answer says what happened; only writes and commands change any file, only search
      and run_command run anything. */
  ghost predicate VerbTruth(c: Setting, req: Request, t: Stage) {
    match VerbOf(req)
    case RunCommandVerb => RunTruth(c, req, t)
    case SearchVerb => SearchTruth(c, req, t) && t.after == t.before.(commands := t.after.commands)
    case PutFileVerb => PutTruth(c, req, t) && t.after.commands == t.before.commands
    case WriteFileVerb => WriteTruth(c, req, t) && t.after.commands == t.before.commands
    case GetFileVerb => GetTruth(c, req, t) && t.after.commands == t.before.commands
    case ReadFileVerb => ReadTruth(c, req, t) && t.after.commands == t.before.commands
    case StatVerb | ListDirVerb => LookTruth(c, req, t) && t.after.commands == t.before.commands
    case ShutdownVerb => t.after == t.before && (t.reply.Some? ==> t.reply.value.resp == Acknowledged(IdOf(req)))
    case HelloVerb | SysInfoVerb =>
      t.after == t.before && (t.reply.Some? ==> t.reply.value.resp == Answered(IdOf(req), true))
    case NoVerb | OtherVerb => t.after == t.before
  }

  /** Does serving the request come as far as the run-as scope? */
  predicate EntersScope(req: Request) {
    match VerbOf(req)
    case PutFileVerb => PutBytes(req).Some?
    case WriteFileVerb => HasWriteFields(req)
    case GetFileVerb | ReadFileVerb | StatVerb | ListDirVerb => FindText(req, "path").Some?
    case _ => false
  }

  /** The request was served in its user's rights, or, if those could not be had, without a file-system call; an
      answer carries its id, and says what was wrong with it. */
  ghost predicate Confined(c: Setting, req: Request, t: Stage) {
    && Scoped(t.before, PrincipalOf(c.passwd, req), EntersScope(req), c.validIds, t.after)
    && (ObstacleOf(c, req, t).Some? && !EntersScope(req) ==> t.after == t.before)
    && (t.reply.Some? ==>
          && t.reply.value.resp.id == IdOf(req) && Refuses(ObstacleOf(c, req, t), t.reply.value.resp, IdOf(req))
          && (TurnedBack(t.reply.value.resp) ==> t.after.calls == t.before.calls))
  }

  /** The files of a process are as its history has left them. */
  ghost predicate InStepWith(w: World) {
    IsRun(w.history) && w.fs == w.history.Last().fs
  }

  /** Every served request. One that is not admitted does nothing to the process and is answered, if at all, by
      an error. A reply is whole exactly unless a read failed, which, with nothing else at the files, takes a failed
      call. */
  ghost predicate Truthful(c: Setting, t: Stage) {
    && InStepWith(t.before) && InStepWith(t.after) && Extends(t.before.history, t.after.history)
    && (if AdmittedLine(c.codec.parse, c.gate, t.frame.line) then
          var req := c.codec.parse(t.frame.line).req;
          VerbTruth(c, req, t) && Confined(c, req, t)
        else
          && t.after == t.before
          && (t.reply.Some? ==>
                t.reply.value.resp == Failed(LineId(c.codec.parse, t.frame.line), Denial(c.codec.parse(t.frame.line)))))
    && t.before.faults <= t.after.faults && (c.alone && t.readFailed ==> Faulty(t))
    && (t.readFailed <==> t.reply.Some? && !Complete(t.reply.value))
    && (t.readFailed ==> AdmittedLine(c.codec.parse, c.gate, t.frame.line)
                         && VerbOf(c.codec.parse(t.frame.line).req) == GetFileVerb)
  }

  function IgnoresCase(req: Request): bool {
    match FindBool(req, "ignore_case") case Some(b) => b case None => false
  }

  function SearchPath(req: Request): Text {
    match FindText(req, "path") case Some(p) => (if p == [] then "." else p) case None => "."
  }

  /** What the shell makes of the search command, for a grep whose name needs no quoting. */
  predicate SearchCommand(cmd: Text, grepBin: Text, req: Request)
    requires FindText(req, "pattern").Some?
  {
    var pattern, path := FindText(req, "pattern").value, SearchPath(req);
    Shell.IsPlainWord(grepBin) ==>
      Shell.Tokens(CString(cmd)) ==
        if '\0' in pattern || '\0' in path then None
        else Some(Shell.GrepTokens(grepBin, IgnoresCase(req), pattern, path))
  }

  lemma UploadTruth(c: Setting, req: Request, t: Stage)
    requires AdmittedLine(c.codec.parse, c.gate, t.frame.line) && c.codec.parse(t.frame.line).req == req
    requires InStepWith(t.before) && InStepWith(t.after) && Extends(t.before.history, t.after.history)
    requires VerbOf(req) == PutFileVerb && t.after.commands == t.before.commands && !t.readFailed
    requires PutTruth(c, req, t) && Confined(c, req, t) && (t.reply.Some? ==> Complete(t.reply.value))
    ensures Truthful(c, t)
  {
    hide PutTruth, InStepWith, Extends;
  }

  lemma DownloadTruth(c: Setting, req: Request, t: Stage)
    requires AdmittedLine(c.codec.parse, c.gate, t.frame.line) && c.codec.parse(t.frame.line).req == req
    requires InStepWith(t.before) && InStepWith(t.after) && Extends(t.before.history, t.after.history)
    requires VerbOf(req) == GetFileVerb && t.after.commands == t.before.commands
    requires GetTruth(c, req, t) && Confined(c, req, t) && (c.alone && t.readFailed ==> Faulty(t))
    requires t.readFailed <==> t.reply.Some? && !Complete(t.reply.value)
    ensures Truthful(c, t)
  {
    hide GetTruth, InStepWith, Extends;
  }

  /** What the three line verbs on files have in common: rights, id, and what was wrong. */
  ghost predicate Obeys(c: Setting, req: Request, t: Stage, fields: Option<Problem>) {
    var p, own := PrincipalOf(c.passwd, req), t.before.creds;
    && t.after.commands == t.before.commands && t.reply.Some? && Scoped(t.before, p, fields.None?, c.validIds, t.after)
    && t.reply.value.resp.id == IdOf(req)
    && Refuses(Hindrance(fields, p, own, c.validIds), t.reply.value.resp, IdOf(req))
    && (TurnedBack(t.reply.value.resp) ==> t.after.calls == t.before.calls) && (fields.Some? ==> t.after == t.before)
  }

  lemma WriteIsTrue(c: Setting, req: Request, t: Stage)
    requires VerbOf(req) == WriteFileVerb && Obeys(c, req, t, WriteProblem(req))
    requires var j, fields := JobFor(c, req, ContentOf(c.codec, req), t), WriteProblem(req);
             && Wrought(t.before.history, t.after.history, c.alone, j, t.log)
             && Reports(t.reply.value.resp, IdOf(req), j, t.log)
             && (c.alone && !Faulty(t) ==>
                   Settles(j, t.before.fs, Hindrance(fields, PrincipalOf(c.passwd, req), t.before.creds, c.validIds),
                           t.log, t.reply.value.resp, IdOf(req)))
    ensures VerbTruth(c, req, t) && Confined(c, req, t)
  {
    hide Wrought, Scoped, Hindrance, Reports, Decided, Blocked, Refuses, TurnedBack;
  }

  lemma ReadIsTrue(c: Setting, req: Request, t: Stage)
    requires VerbOf(req) == ReadFileVerb && Obeys(c, req, t, PathProblem(req)) && ReadTruth(c, req, t)
    ensures VerbTruth(c, req, t) && Confined(c, req, t)
  {
    hide Scoped, Hindrance, ReadTruth, Refuses, TurnedBack;
  }

  lemma LookIsTrue(c: Setting, req: Request, t: Stage)
    requires VerbOf(req) == StatVerb || VerbOf(req) == ListDirVerb
    requires Obeys(c, req, t, PathProblem(req)) && LookTruth(c, req, t)
    ensures VerbTruth(c, req, t) && Confined(c, req, t)
  {
    hide Scoped, Hindrance, LookTruth, Refuses, TurnedBack;
  }

  /** The verbs that only answer. */
  lemma QuietTruth(c: Setting, req: Request, t: Stage)
    requires VerbOf(req).NoVerb? || VerbOf(req).HelloVerb? || VerbOf(req).SysInfoVerb? || VerbOf(req).ShutdownVerb?
             || VerbOf(req).OtherVerb?
    requires t.after == t.before && t.reply.Some?
    requires t.reply.value.resp == match VerbOf(req)
                                   case NoVerb => Failed(IdOf(req), NoVerbGiven)
                                   case OtherVerb => Failed(IdOf(req), NoSuchVerb)
                                   case ShutdownVerb => Acknowledged(IdOf(req))
                                   case _ => Answered(IdOf(req), true)
    ensures VerbTruth(c, req, t) && Confined(c, req, t)
  {
  }

  lemma CommandTruth(c: Setting, req: Request, t: Stage)
    requires VerbOf(req) == RunCommandVerb && RunTruth(c, req, t)
    requires t.reply.Some? ==> Refuses(ObstacleOf(c, req, t), t.reply.value.resp, IdOf(req))
    ensures VerbTruth(c, req, t) && Confined(c, req, t)
  {
    hide Leaves;
    LeavesNothing(t.before, PrincipalOf(c.passwd, req), c.validIds);
  }

  lemma QueryTruth(c: Setting, req: Request, t: Stage)
    requires VerbOf(req) == SearchVerb && SearchTruth(c, req, t)
    requires t.after == t.before.(commands := t.after.commands) && (t.reply.Some? ==> !TurnedBack(t.reply.value.resp))
    requires t.reply.Some? ==>
               t.reply.value.resp.id == IdOf(req) && Refuses(ObstacleOf(c, req, t), t.reply.value.resp, IdOf(req))
    ensures VerbTruth(c, req, t) && Confined(c, req, t)
  {
    hide Leaves, SearchCommand, SearchAnswer;
    LeavesNothing(t.before, PrincipalOf(c.passwd, req), c.validIds);
  }

  /** What happened is still what happened if the answer could not be sent. */
  lemma Unsent(c: Setting, t: Stage)
    requires Truthful(c, t)
    ensures Truthful(c, t.(reply := None, readFailed := false))
  {
    hide Wrought, Decided, Reports;
  }
}
