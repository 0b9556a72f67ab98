/** What a request asks for, and what the connection hears of it. */
module Requests {
  import opened Base
  import opened FileSystem
  import opened WriterProtocol
  import opened Framing
  import opened Kernel

  /** What a streaming verb tells the connection loop; `Threw` is an exception passing through. */
  datatype Rc = NotStreaming | Continue | MustClose | Threw

  function ModeOf(req: Request): Option<int> {
    match FindNumber(req, "mode") case Some(n) => Some(Truncated(n)) case None => None
  }

  function PathOf(req: Request): Path {
    match FindText(req, "path") case Some(p) => p case None => []
  }

  /** The write a request asks for, with the rights it runs under. */
  function JobOf(pid: nat, req: Request, payload: Text, p: Principal, own: Creds): Job {
    Job(pid, PathOf(req), payload, ModeOf(req),
        if p.AsUser? then p.account.uid else own.euid, if p.AsUser? then p.account.gid else own.egid)
  }

  predicate HasWriteFields(req: Request) {
    FindText(req, "path").Some? && FindText(req, "content").Some?
  }

  // ---------------------------------------------------------------- what is wrong with a request

  function PathProblem(req: Request): Option<Problem> {
    if FindText(req, "path").None? then Some(BadPath) else None
  }

  function WriteProblem(req: Request): Option<Problem> {
    if FindText(req, "path").None? then Some(BadPath)
    else if FindText(req, "content").None? then Some(BadContent)
    else None
  }

  function UploadProblem(req: Request): Option<Problem> {
    if FindText(req, "path").None? then Some(BadPath)
    else if FindNumber(req, "bytes").None? then Some(BadBytes)
    else if FindNumber(req, "bytes").value < 0.0 then Some(NegativeBytes)
    else None
  }

  /** run_command finds its user's name, and leaves it to the command to take on its rights. */
  function CommandProblem(req: Request, p: Principal): Option<Problem> {
    if FindText(req, "cmd").None? then Some(BadCommand)
    else if p.Unknown? then Some(UnknownUser(p.name))
    else None
  }

  /** The user is unknown, or the process may not take on its rights. */
  function RightsProblem(p: Principal, may: bool): Option<Problem> {
    match p
    case AsDaemon => None
    case Unknown(name) => Some(UnknownUser(name))
    case AsUser(name, _) => if may then None else Some(CannotRunAs(name))
  }

  /** The fields are looked at before the user. */
  function Hindrance(fields: Option<Problem>, p: Principal, own: Creds, validIds: set<int>): Option<Problem> {
    if fields.Some? then fields else RightsProblem(p, MayRunAs(p, own, validIds))
  }

  /** A request with a problem is answered by it. */
  predicate Refuses(problem: Option<Problem>, r: Response, id: real) {
    problem.Some? ==> r == Failed(id, problem.value)
  }

  // ---------------------------------------------------------------- what it is answered from

  /** The file a read verb answers from: what its path names. */
  function NodeAt(fs: Fs, req: Request): Option<Inode> {
    Lookup(fs, Name(PathOf(req)))
  }

  predicate IsFile(node: Option<Inode>) {
    node.Some? && node.value.kind == Regular
  }

  /** Where there is no file to read, the answer says why not. */
  predicate NoFile(r: Response, id: real, node: Option<Inode>) {
    !IsFile(node) ==> r == Failed(id, if node.None? then SystemError else NotAFile)
  }

  /** The answer of a request whose user is unknown or could not be taken on. */
  predicate TurnedBack(r: Response) {
    r.Failed? && (r.error.UnknownUser? || r.error.CannotRunAs?)
  }

  /** Exactly the body is gone from the input. */
  predicate BodyConsumed(before: Text, after: Text, total: nat) {
    total <= |before| && after == before[total..]
  }

  /** One more response line, with nothing after it. */
  predicate OneMore(before: seq<Reply>, after: seq<Reply>) {
    |after| == |before| + 1 && after[..|before|] == before && after[|before|].body == []
  }

  predicate OneMoreReply(before: seq<Reply>, after: seq<Reply>) {
    |after| == |before| + 1 && after[..|before|] == before
  }

  /** At most one reply went out, and it is this request's. */
  predicate LateReply(before: seq<Reply>, after: seq<Reply>, id: real) {
    after == before || (|after| == |before| + 1 && after[..|before|] == before && after[|before|].resp.id == id)
  }

  /** All calls made in between were made with these credentials. */
  ghost predicate MadeAs(before: seq<Creds>, after: seq<Creds>, creds: Creds) {
    before <= after && forall i :: |before| <= i < |after| ==> after[i] == creds
  }
}
