/** What a served request may count on, by the fields of its line and the entries of passwd: the answer and its id,
    the rights it is served in, the file a write leaves, and what a read or a search sends back. */
module Promises {
  import opened Base
  import opened Fields
  import opened FileSystem
  import opened WriterProtocol
  import opened Concurrency
  import opened Framing
  import opened Kernel
  import opened Requests
  import opened Writes
  import opened Reads
  import opened FileVerbs
  import opened Answers
  import opened Stream
  import Guarantees
  import Sessions
  import Search
  import Shell

  /** The reply is an error, of this kind. */
  predicate Errs(t: Stage, e: Problem) {
    t.reply.Some? ==> t.reply.value.resp.Failed? && t.reply.value.resp.error == e && t.reply.value.body == []
  }

  /** The reply is an error. */
  predicate Denies(t: Stage) {
    t.reply.Some? ==> t.reply.value.resp.Failed?
  }

  /** The reply says ok, and no more than that of what it found. */
  predicate Affirms(t: Stage) {
    t.reply.Some? ==> t.reply.value.resp.Answered? && t.reply.value.resp.ok
  }

  // ---------------------------------------------------------------- answers

  /** Each name reaches its own verb, and nothing else does. */
  lemma VerbsByName(req: Request)
    ensures IsHello(req) <==> VerbOf(req) == HelloVerb
    ensures IsSysInfo(req) <==> VerbOf(req) == SysInfoVerb
    ensures IsShutdown(req) <==> VerbOf(req) == ShutdownVerb
    ensures IsRunCommand(req) <==> VerbOf(req) == RunCommandVerb
    ensures IsReadFile(req) <==> VerbOf(req) == ReadFileVerb
    ensures IsWriteFile(req) <==> VerbOf(req) == WriteFileVerb
    ensures IsStat(req) <==> VerbOf(req) == StatVerb
    ensures IsListDir(req) <==> VerbOf(req) == ListDirVerb
    ensures IsSearch(req) <==> VerbOf(req) == SearchVerb
    ensures IsPutFile(req) <==> VerbOf(req) == PutFileVerb
    ensures IsGetFile(req) <==> VerbOf(req) == GetFileVerb
    ensures HasVerb(req) <==> VerbOf(req) != NoVerb
  {
  }

  /** What an admitted request is served as. */
  lemma Served(c: Setting, t: Stage, req: Request)
    requires Truthful(c, t) && c.codec.parse(t.frame.line) == Object(req) && LetIn(c.gate, req)
    ensures VerbTruth(c, req, t) && Confined(c, req, t)
    ensures ObstacleOf(c, req, t).Some? ==> Errs(t, ObstacleOf(c, req, t).value)
    ensures t.reply.Some? && VerbOf(req) != GetFileVerb ==> Complete(t.reply.value)
    ensures c.alone && t.readFailed ==> Faulty(t)
    ensures t.before.fs == t.before.history.Last().fs && t.after.fs == t.after.history.Last().fs
  {
    hide Scoped, IsRun, Extends, ObstacleOf, VerbOf, PutTruth, WriteTruth, ReadTruth, LookTruth, RunTruth,
         SearchTruth;
  }

  /** Every answer carries the id of its request. */
  lemma EchoesTheId(c: Setting, t: Stage, req: Request)
    requires Truthful(c, t) && t.reply.Some? && c.codec.parse(t.frame.line) == Object(req)
    ensures HasId(req, t.reply.value.resp.id)
  {
    hide VerbTruth, InStepWith, Extends;
  }

  /** A line that is no object, or whose request is not let in, does nothing to the process, and is told why. */
  lemma TurnsAway(c: Setting, t: Stage)
    requires Truthful(c, t)
    requires forall req :: c.codec.parse(t.frame.line) == Object(req) ==> !LetIn(c.gate, req)
    ensures t.after == t.before
    ensures !c.codec.parse(t.frame.line).Object? ==> Errs(t, Protocol)
    ensures forall req :: c.codec.parse(t.frame.line) == Object(req) ==>
              Errs(t, if HasVerb(req) then Unauthorized else NoVerbGiven)
  {
    hide VerbTruth, InStepWith, Extends, Confined;
  }

  /** The verbs that only answer, and the requests that name none. */
  lemma OnlyAnswers(c: Setting, t: Stage, req: Request)
    requires Truthful(c, t) && c.codec.parse(t.frame.line) == Object(req) && LetIn(c.gate, req)
    ensures IsHello(req) || IsSysInfo(req) ==> t.after == t.before && Affirms(t)
    ensures IsShutdown(req) ==> t.after == t.before && (t.reply.Some? ==> t.reply.value.resp.Acknowledged?)
    ensures !HasVerb(req) ==> t.after == t.before && Errs(t, NoVerbGiven)
    ensures HasVerb(req) && !IsKnown(req) ==> t.after == t.before && Errs(t, NoSuchVerb)
  {
    hide Truthful, VerbOf, Confined, PrincipalOf, PutTruth, WriteTruth, GetTruth, ReadTruth, LookTruth, RunTruth,
         SearchTruth, Hindrance, Says;
    VerbsByName(req);
    Served(c, t, req);
  }

  // ---------------------------------------------------------------- rights

  /** Nothing was done but to try to take on rights. */
  predicate OnlyTried(w0: World, w1: World) {
    w1 == w0.(creds := w1.creds, faults := w1.faults)
  }

  /** What passwd has under the name, as a C string. */
  predicate IsEntry(c: Setting, name: Text, a: Account) {
    CString(name) in c.passwd && c.passwd[CString(name)] == a
  }

  /** A root process may take on the ids of this entry. */
  predicate CanBe(c: Setting, own: Creds, a: Account) {
    own.euid == 0 && a.uid in c.validIds && a.gid in c.validIds
  }

  /** Whose rights the request asks for. */
  lemma UserOf(c: Setting, req: Request)
    ensures HasNoUser(req) <==> PrincipalOf(c.passwd, req).AsDaemon?
    ensures forall name, a ::
              PrincipalOf(c.passwd, req) == AsUser(name, a) <==> HasUser(req, name) && IsEntry(c, name, a)
    ensures forall name ::
              PrincipalOf(c.passwd, req) == Unknown(name) <==> HasUser(req, name) && CString(name) !in c.passwd
  {
  }

  /** Without a user, or with an empty name, a request runs with the rights of its process. */
  lemma OwnRights(c: Setting, t: Stage, req: Request)
    requires Truthful(c, t) && c.codec.parse(t.frame.line) == Object(req) && LetIn(c.gate, req) && HasNoUser(req)
    ensures forall i :: |t.before.calls| <= i < |t.after.calls| ==> t.after.calls[i] == t.before.creds
  {
    hide Truthful, VerbTruth, PrincipalOf, EntersScope, ObstacleOf, LeftBy;
    UserOf(c, req);
    Served(c, t, req);
  }

  /** A name that passwd does not have, as a C string, is an error, and nothing is done, not even a call. */
  lemma NoSuchUser(c: Setting, t: Stage, req: Request, name: Text)
    requires Truthful(c, t) && c.codec.parse(t.frame.line) == Object(req) && LetIn(c.gate, req)
    requires HasUser(req, name) && CString(name) !in c.passwd
    ensures t.after.calls == t.before.calls && t.after.creds == t.before.creds
    ensures IsOnFiles(req) || IsRunCommand(req) ==> t.after == t.before && Denies(t)
  {
    hide Truthful, VerbTruth, PrincipalOf, VerbOf;
    VerbsByName(req);
    UserOf(c, req);
    Served(c, t, req);
  }

  /** One that passwd has runs with exactly the entry's uid, gid and groups; or, if the process is not root or the
      kernel refuses an id, it is an error, and nothing is done but to try. */
  lemma RightsOfTheUser(c: Setting, t: Stage, req: Request, name: Text, a: Account)
    requires Truthful(c, t) && c.codec.parse(t.frame.line) == Object(req) && LetIn(c.gate, req)
    requires HasUser(req, name) && IsEntry(c, name, a)
    ensures CallsMadeWith(t.before, t.after, a.uid, a.gid, a.groups + {a.gid})
    ensures IsOnFiles(req) && !CanBe(c, t.before.creds, a) ==> OnlyTried(t.before, t.after) && Denies(t)
  {
    hide Truthful, VerbTruth, PrincipalOf, VerbOf, Scoped, CallsMadeWith;
    VerbsByName(req);
    UserOf(c, req);
    Served(c, t, req);
    AsTheUser(t, name, a, EntersScope(req), c.validIds);
  }

  lemma AsTheUser(t: Stage, name: Text, a: Account, enters: bool, validIds: set<int>)
    requires Scoped(t.before, AsUser(name, a), enters, validIds, t.after)
    ensures CallsMadeWith(t.before, t.after, a.uid, a.gid, a.groups + {a.gid})
    ensures enters && !MayRunAs(AsUser(name, a), t.before.creds, validIds) ==> OnlyTried(t.before, t.after)
  {
    hide Leaves, LeftBy;
  }

  /** Which of the two errors a user is answered by, where nothing else is wrong with the request. */
  lemma NamesTheUser(c: Setting, t: Stage, req: Request, name: Text)
    requires Truthful(c, t) && c.codec.parse(t.frame.line) == Object(req) && LetIn(c.gate, req) && HasUser(req, name)
    requires HasFields(req)
    ensures CString(name) !in c.passwd ==> Errs(t, UnknownUser(name))
    ensures forall a :: IsEntry(c, name, a) && !CanBe(c, t.before.creds, a) && IsOnFiles(req) ==>
              Errs(t, CannotRunAs(name))
  {
    hide Truthful, VerbOf, VerbTruth, Confined, PrincipalOf;
    VerbsByName(req);
    UserOf(c, req);
    Served(c, t, req);
  }

  /** A request on files, or a command, with the fields it needs. */
  predicate HasFields(req: Request) {
    || (IsRunCommand(req) && !LacksCommand(req))
    || (IsOnFiles(req) && !LacksPath(req)
        && (IsWriteFile(req) ==> !LacksContent(req))
        && (IsPutFile(req) ==> TellsLength(req)))
  }

  /** Without them it is an error of its own, and nothing is done. */
  lemma NamesTheField(c: Setting, t: Stage, req: Request)
    requires Truthful(c, t) && c.codec.parse(t.frame.line) == Object(req) && LetIn(c.gate, req)
    ensures (IsOnFiles(req) || IsRunCommand(req)) && !HasFields(req) ==> t.after == t.before
    ensures IsOnFiles(req) && LacksPath(req) ==> Errs(t, BadPath)
    ensures IsWriteFile(req) && !LacksPath(req) && LacksContent(req) ==>
              Errs(t, BadContent)
    ensures IsPutFile(req) && !LacksPath(req) && !TellsLength(req) ==>
              Errs(t, if LacksBytes(req) then BadBytes else NegativeBytes)
    ensures IsRunCommand(req) && LacksCommand(req) ==> Errs(t, BadCommand)
    ensures IsSearch(req) && LacksPattern(req) ==>
              t.after == t.before && Errs(t, BadPattern)
  {
    hide Truthful, VerbOf, VerbTruth, Scoped;
    VerbsByName(req);
    Served(c, t, req);
  }

  // ---------------------------------------------------------------- writes

  /** The bytes a write is to leave: those that follow the line, or those its base64 stands for. */
  ghost predicate IsData(c: Setting, t: Stage, req: Request, data: Text) {
    || (IsPutFile(req) && data == t.frame.body)
    || (IsWriteFile(req) && exists content :: HasContent(req, content) && data == c.codec.fromBase64(content))
  }

  /** Who makes the file: the user, or the process itself. */
  ghost predicate IsMaker(c: Setting, t: Stage, req: Request, uid: int, gid: int) {
    || (HasNoUser(req) && uid == t.before.creds.euid && gid == t.before.creds.egid)
    || exists name, a :: HasUser(req, name) && IsEntry(c, name, a) && uid == a.uid && gid == a.gid
  }

  /** The mode asked for wins; then that of the file replaced; then 0644. Only the low twelve bits count. */
  ghost predicate IsItsMode(req: Request, seen: Option<Inode>, mode: nat) {
    if !LacksMode(req) then exists x: real, n: int :: HasMode(req, x) && IsIntegerPart(x, n) && mode == n % 4096
    else if seen.Some? then mode == seen.value.mode % 4096
    else mode == 6 * 8 * 8 + 4 * 8 + 4
  }

  /** Root keeps the owner of a file it replaces. */
  predicate IsItsOwner(seen: Option<Inode>, uid: int, gid: int, node: Inode) {
    if seen.Some? && uid == 0 then node.uid == seen.value.uid && node.gid == seen.value.gid
    else node.uid == uid && node.gid == gid
  }

  /** The file is as the request asks, given what stood at the target. */
  ghost predicate IsAsAsked(c: Setting, t: Stage, req: Request, data: Text, seen: Option<Inode>, node: Inode) {
    && node.kind == Regular && node.data == data && IsItsMode(req, seen, node.mode)
    && exists uid, gid :: IsMaker(c, t, req, uid, gid) && IsItsOwner(seen, uid, gid, node)
  }

  /** A write that is committed leaves at its path, with no one else at the files or only ordinary requests, exactly
      the file that was asked for, and its answer says so. What it knew of the old file was so at a moment since it
      began. */
  lemma LeavesWhatWasAsked(c: Setting, t: Stage, req: Request, path: Text, data: Text)
    requires Truthful(c, t) && c.codec.parse(t.frame.line) == Object(req) && LetIn(c.gate, req)
    requires HasPath(req, path) && IsData(c, t, req, data) && t.log.ok
    ensures c.alone || IsTame(t.after.history) ==>
              exists node :: Lookup(t.after.fs, CString(path)) == Some(node)
                  && IsAsAsked(c, t, req, data, t.log.seen, node)
    ensures exists node :: IsAsAsked(c, t, req, data, t.log.seen, node) && Tells(t, path, node)
    ensures t.log.seen.Some? ==>
              && t.log.seen.value.kind == Regular
              && exists k :: |t.before.history.events| < k < |t.after.history.states|
                             && Lookup(t.after.history.states[k].fs, CString(path)) == t.log.seen
    ensures c.alone && !Faulty(t) && t.reply.Some? ==> t.log.seen == Lookup(t.before.fs, CString(path))
  {
    hide Truthful, VerbOf, IsTame, IsRun, IsAsAsked, FinalInode, Wrought, CommitsLast, IsMaker, NamedAt, Reports, Began;
    IsTheJob(c, t, req, path, data);
    var j, seen := Guarantees.JobAt(c, t), t.log.seen;
    FileIsAsAsked(c, t, req, path, data, j);
    WroteIt(c, t, j);
    Guarantees.WriteIsAllOrNothing(c, t);
    if seen.Some? {
      SawIt(c, t, j);
    }
  }

  lemma SawIt(c: Setting, t: Stage, j: Job)
    requires Truthful(c, t) && Guarantees.IsWrite(c, t) && t.log.ok && t.log.seen.Some? && j == Guarantees.JobAt(c, t)
    ensures t.log.seen.value.kind == Regular
    ensures exists k :: |t.before.history.events| < k < |t.after.history.states|
                        && Lookup(t.after.history.states[k].fs, CString(j.path)) == t.log.seen
  {
    hide Truthful, Guarantees.IsWrite, Guarantees.JobAt, Began, IsRun;
    Guarantees.SawItsTarget(c, t);
    Guarantees.HistoryOf(c, t);
    var k: nat :|
      NamedAt(t.after.history, c.pid, j.path, t.log.seen.value, k) && k > |t.before.history.events|;
  }

  lemma WroteIt(c: Setting, t: Stage, j: Job)
    requires Truthful(c, t) && Guarantees.IsWrite(c, t) && t.log.ok && j == Guarantees.JobAt(c, t)
    ensures c.alone ==> Lookup(t.after.fs, CString(j.path)) == Some(FinalInode(j, t.log.seen))
    ensures c.alone && !Faulty(t) && t.reply.Some? ==> t.log.seen == Lookup(t.before.fs, CString(j.path))
    ensures t.reply.Some? ==>
              t.reply.value.resp == Wrote(t.reply.value.resp.id, j.path, |j.payload|, FinalMode(j.mode, t.log.seen),
                                          t.log.seen.None?)
  {
    hide FinalInode, FinalMode, CommitsLast, Confined, Blocked, IsRun, Extends;
  }

  /** The job the write makes of the request. */
  lemma IsTheJob(c: Setting, t: Stage, req: Request, path: Text, data: Text)
    requires Truthful(c, t) && c.codec.parse(t.frame.line) == Object(req) && LetIn(c.gate, req)
    requires HasPath(req, path) && IsData(c, t, req, data) && t.log.ok
    ensures Guarantees.IsWrite(c, t)
    ensures var j := Guarantees.JobAt(c, t);
            && j.pid == c.pid && j.path == path && j.payload == data && j.mode == ModeOf(req)
            && IsMaker(c, t, req, j.euid, j.egid)
  {
    hide Truthful, VerbOf, VerbTruth, Confined, PrincipalOf;
    VerbsByName(req);
    Committing(c, t, req);
    UserOf(c, req);
  }

  /** A write that was committed had nothing wrong with it. */
  lemma Committing(c: Setting, t: Stage, req: Request)
    requires Truthful(c, t) && c.codec.parse(t.frame.line) == Object(req) && LetIn(c.gate, req)
    requires (VerbOf(req) == PutFileVerb || VerbOf(req) == WriteFileVerb) && t.log.ok
    ensures VerbOf(req) == PutFileVerb ==> PutBytes(req).Some?
    ensures !PrincipalOf(c.passwd, req).Unknown?
  {
    hide Truthful, VerbOf, Decided, Blocked, Reports, IsRun, PrincipalOf, CommitOf, Commits, Began;
    Served(c, t, req);
  }

  lemma FileIsAsAsked(c: Setting, t: Stage, req: Request, path: Text, data: Text, j: Job)
    requires j.path == path && j.payload == data && j.mode == ModeOf(req) && IsMaker(c, t, req, j.euid, j.egid)
    ensures var node := FinalInode(j, t.log.seen);
            IsAsAsked(c, t, req, data, t.log.seen, node) && node.data == data
                && node.mode == FinalMode(j.mode, t.log.seen)
  {
    hide IsMaker;
    if !LacksMode(req) {
      var x := FindNumber(req, "mode").value;
      assert HasMode(req, x) && IsIntegerPart(x, Truncated(x));
    }
  }

  /** The answer to a write, if it went out. */
  predicate Tells(t: Stage, path: Text, node: Inode) {
    t.reply.Some? ==>
      t.reply.value.resp == Wrote(t.reply.value.resp.id, path, |node.data|, node.mode, t.log.seen.None?)
  }

  // ---------------------------------------------------------------- in quiet

  /** The request may be served in the rights it asks for. */
  ghost predicate MayAct(c: Setting, t: Stage, req: Request) {
    HasNoUser(req) || exists name, a :: HasUser(req, name) && IsEntry(c, name, a) && CanBe(c, t.before.creds, a)
  }

  lemma NothingInTheWay(c: Setting, t: Stage, req: Request)
    requires IsOnFiles(req) && HasFields(req)
    ensures ObstacleOf(c, req, t).None? <==> MayAct(c, t, req)
  {
    hide VerbOf, PrincipalOf;
    VerbsByName(req);
    UserOf(c, req);
  }

  /** Nothing else is at the files, no call failed, and the answer went out. */
  predicate InQuiet(c: Setting, t: Stage) {
    c.alone && t.after.faults == t.before.faults && t.reply.Some?
  }

  /** The file at the path. */
  predicate Stands(fs: Fs, path: Text, node: Inode) {
    Lookup(fs, CString(path)) == Some(node)
  }

  predicate NothingAt(fs: Fs, path: Text) {
    Lookup(fs, CString(path)) == None
  }

  /** A directory or a device at the path. */
  predicate Blocks(fs: Fs, path: Text) {
    Lookup(fs, CString(path)).Some? && Lookup(fs, CString(path)).value.kind != Regular
  }

  /** A temp file of an earlier process is still there. */
  predicate TempTaken(c: Setting, fs: Fs, path: Text) {
    CString(path + ".helios-tmp-" + Decimal(c.pid)) in fs.dir
  }

  /** What such a write has come to. */
  lemma Settled(c: Setting, t: Stage, req: Request, path: Text) returns (j: Job)
    requires Truthful(c, t) && c.codec.parse(t.frame.line) == Object(req) && LetIn(c.gate, req)
    requires (IsPutFile(req) || IsWriteFile(req)) && HasFields(req) && HasPath(req, path) && InQuiet(c, t)
    ensures j.pid == c.pid && j.path == path
    ensures Settles(j, t.before.fs, ObstacleOf(c, req, t), t.log, t.reply.value.resp, IdOf(req))
    ensures Reports(t.reply.value.resp, IdOf(req), j, t.log)
    ensures !t.log.ok ==> Untouched(t.before.fs, t.after.fs)
  {
    hide Truthful, VerbOf, PrincipalOf, ObstacleOf, Confined, Settles, CommitsLast, Began, IsRun, Extends, Installed,
         Untouched;
    VerbsByName(req);
    Served(c, t, req);
    j := JobFor(c, req, if IsPutFile(req) then t.frame.body else ContentOf(c.codec, req), t);
  }

  lemma TempNamed(c: Setting, j: Job, fs: Fs)
    requires j.pid == c.pid
    ensures TempTaken(c, fs, j.path) <==> Temp(j) in fs.dir
    ensures Blocks(fs, j.path) <==> Lookup(fs, Target(j)).Some? && Lookup(fs, Target(j)).value.kind != Regular
  {
  }

  /** When a write must succeed: exactly if the rights can be had, a file or nothing is at the path, and the temp name
      is free. Otherwise no entry and no file is different, and the answer says which it was. */
  lemma WritesExactlyIf(c: Setting, t: Stage, req: Request, path: Text)
    requires Truthful(c, t) && c.codec.parse(t.frame.line) == Object(req) && LetIn(c.gate, req)
    requires (IsPutFile(req) || IsWriteFile(req)) && HasFields(req) && HasPath(req, path) && InQuiet(c, t)
    ensures var fs, ok := t.before.fs, t.reply.value.resp.Wrote?;
            && t.log.ok == ok
            && (ok <==> MayAct(c, t, req) && !Blocks(fs, path) && !TempTaken(c, fs, path))
            && (!ok ==> Untouched(fs, t.after.fs) && Denies(t))
            && (MayAct(c, t, req) && Blocks(fs, path) ==> Errs(t, NotAFile))
            && (MayAct(c, t, req) && !Blocks(fs, path) && TempTaken(c, fs, path) ==> Errs(t, NoTempFile))
  {
    hide Truthful, ObstacleOf, MayAct, HasFields, Untouched, TempTaken, Blocks;
    var j := Settled(c, t, req, path);
    TempNamed(c, j, t.before.fs);
    NothingInTheWay(c, t, req);
    Served(c, t, req);
  }

  /** get_file sends the header and exactly the bytes of the file at its path, if it is a regular one and the rights
      can be had; otherwise an error, with no body. */
  lemma SendsTheFile(c: Setting, t: Stage, req: Request, path: Text)
    requires Truthful(c, t) && c.codec.parse(t.frame.line) == Object(req) && LetIn(c.gate, req)
    requires IsGetFile(req) && HasPath(req, path) && InQuiet(c, t)
    ensures forall node :: Stands(t.before.fs, path, node) && node.kind == Regular && MayAct(c, t, req) ==>
              t.reply.value == Reply(Sending(t.reply.value.resp.id, path, |node.data|, node.mode % 4096), node.data)
    ensures MayAct(c, t, req) && Blocks(t.before.fs, path) ==> Errs(t, NotAFile)
    ensures MayAct(c, t, req) && NothingAt(t.before.fs, path) ==> Errs(t, SystemError)
    ensures !MayAct(c, t, req) ==> Denies(t) && t.reply.value.body == []
  {
    hide Truthful, VerbOf, PrincipalOf, ObstacleOf, MayAct, Confined, LooksOn, Sent, Slurped;
    VerbsByName(req);
    Served(c, t, req);
    NothingInTheWay(c, t, req);
  }

  /** read_file sends the file in base64, of its size as a 32-bit number. */
  lemma ReadsTheFile(c: Setting, t: Stage, req: Request, path: Text)
    requires Truthful(c, t) && c.codec.parse(t.frame.line) == Object(req) && LetIn(c.gate, req)
    requires IsReadFile(req) && HasPath(req, path) && InQuiet(c, t)
    ensures forall node :: Stands(t.before.fs, path, node) && node.kind == Regular && MayAct(c, t, req) ==>
              var size := |node.data| % 4294967296;
              t.reply.value.resp == Contents(t.reply.value.resp.id, path, size, node.mode % 4096,
                                             c.codec.toBase64(node.data[..size]))
    ensures MayAct(c, t, req) && Blocks(t.before.fs, path) ==> Errs(t, NotAFile)
    ensures MayAct(c, t, req) && NothingAt(t.before.fs, path) ==> Errs(t, SystemError)
    ensures !MayAct(c, t, req) ==> Denies(t)
  {
    hide Truthful, VerbOf, PrincipalOf, ObstacleOf, MayAct, Confined, LooksOn, Sent, Slurped;
    VerbsByName(req);
    Served(c, t, req);
    NothingInTheWay(c, t, req);
  }

  /** stat answers for whatever its path names, list_dir for a directory. */
  lemma LooksThere(c: Setting, t: Stage, req: Request, path: Text)
    requires Truthful(c, t) && c.codec.parse(t.frame.line) == Object(req) && LetIn(c.gate, req)
    requires (IsStat(req) || IsListDir(req)) && HasPath(req, path) && InQuiet(c, t)
    ensures t.reply.value.resp.Answered? <==>
              && MayAct(c, t, req)
              && exists node :: Stands(t.before.fs, path, node) && (IsListDir(req) ==> node.kind == Directory)
    ensures t.reply.value.resp.Answered? ==> Affirms(t)
    ensures MayAct(c, t, req) && !t.reply.value.resp.Answered? ==> Errs(t, SystemError)
  {
    hide Truthful, VerbOf, PrincipalOf, ObstacleOf, MayAct, Confined, Extends, IsRun;
    VerbsByName(req);
    Served(c, t, req);
    NothingInTheWay(c, t, req);
    var found := Lookup(t.before.fs, CString(path));
    assert found.Some? ==> Stands(t.before.fs, path, found.value);
    assert t.after.fs == t.before.fs;
  }

  // ---------------------------------------------------------------- commands

  /** One more command was run, with this text, and no call on a file was made by the agent itself. */
  predicate Runs(t: Stage, ran: Command) {
    t.after.commands == t.before.commands + [ran] && t.after.calls == t.before.calls && t.after.creds == t.before.creds
  }

  /** run_command runs the command it is given, as it stands, and once. */
  lemma RunsTheCommand(c: Setting, t: Stage, req: Request, cmd: Text)
    requires Truthful(c, t) && c.codec.parse(t.frame.line) == Object(req) && LetIn(c.gate, req)
    requires IsRunCommand(req) && HasCommand(req, cmd)
    requires HasNoUser(req) || exists name, a :: HasUser(req, name) && IsEntry(c, name, a)
    ensures exists ran: Command :: ran.text == cmd && Runs(t, ran)
    ensures Affirms(t)
  {
    hide Truthful, VerbOf, PrincipalOf;
    VerbsByName(req);
    UserOf(c, req);
    Served(c, t, req);
    var n := |t.before.commands|;
    assert t.after.commands == t.before.commands + [t.after.commands[n]];
  }

  /** search runs one command, which the shell reads as grep -rHn, -i exactly if case is to be ignored, the pattern
      after -e and the path after --; and its answer is what that command printed: the matches up to the number
      asked for, none if grep failed, and then it is not ok. */
  lemma SearchesAsAsked(c: Setting, t: Stage, req: Request, pattern: Text, path: Text, max: nat) returns (ran: Command)
    requires Truthful(c, t) && c.codec.parse(t.frame.line) == Object(req) && LetIn(c.gate, req)
    requires IsSearch(req) && HasPattern(req, pattern) && SearchesIn(req, path) && MayFind(req, max)
    ensures Runs(t, ran) && t.after == t.before.(commands := t.after.commands)
    ensures Shell.IsPlainWord(c.grepBin) ==> Shell.Tokens(CString(ran.text)) == GrepWords(c.grepBin, req, pattern, path)
    ensures t.reply.Some? ==> IsFound(t.reply.value.resp, ran, max)
  {
    hide Truthful, VerbOf, Shell.Tokens, Shell.IsPlainWord, Search.AllMatches;
    VerbsByName(req);
    Served(c, t, req);
    var n := |t.before.commands|;
    ran := t.after.commands[n];
    assert t.after.commands == t.before.commands + [ran];
  }

  /** The words the shell is to read, and the one redirection; with a NUL in pattern or path there is no command. */
  function GrepWords(grepBin: Text, req: Request, pattern: Text, path: Text): Option<seq<Shell.Token>> {
    if '\0' in pattern || '\0' in path then None
    else Some([Shell.Word(grepBin), Shell.Word("-rHn")] + (if WantsAnyCase(req) then [Shell.Word("-i")] else []) +
              [Shell.Word("-e"), Shell.Word(pattern), Shell.Word("--"), Shell.Word(path),
               Shell.IoNumber("2"), Shell.Operator(">"), Shell.Word("/dev/null")])
  }

  predicate IsFound(r: Response, ran: Command, max: nat) {
    var all := Search.AllMatches(ran.output);
    && r.Found? && r.exitCode == ran.status && (r.ok <==> ran.status < 2)
    && (ran.status >= 2 ==> r.matches == [] && !r.truncated)
    && (ran.status < 2 ==> r.matches <= all && |r.matches| == Min(max, |all|) && (r.truncated <==> |all| > max))
    && r.count == |r.matches|
  }
}
