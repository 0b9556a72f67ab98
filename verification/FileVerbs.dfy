/** The file verbs as requests reach them: the user looked up, its rights taken on for the verb and given back. */
module FileVerbs {
  import opened Base
  import opened Fields
  import opened FileSystem
  import opened WriterProtocol
  import opened Concurrency
  import opened Framing
  import opened Connection
  import opened Kernel
  import opened Requests
  import opened Writes
  import opened Reads

  /** What a request for `p` may do to the process, whatever comes of it: make calls with the rights of `p`, or
      none if the process may not take those on, and leave the credentials as they were or, if it came as far as
      the scope (`enters`), as a scope for `p` leaves them: exactly so if no call failed. */
  ghost predicate Scoped(w0: World, p: Principal, enters: bool, validIds: set<int>, w1: World) {
    && w0.calls <= w1.calls && w0.faults <= w1.faults
    && AllActFor(w1.calls, |w0.calls|, p, w0.creds)
    && (!enters ==> w1.calls == w0.calls)
    && (p.Unknown? && enters ==> w1 == w0)
    && (enters && !MayRunAs(p, w0.creds, validIds) ==> w1 == w0.(creds := w1.creds, faults := w1.faults))
    && (if enters then Leaves(w0.creds, p, validIds, w1.creds) else w1.creds == w0.creds)
    && (enters && w1.faults == w0.faults ==> w1.creds == LeftBy(w0.creds, p, validIds))
  }

  /** A name that passwd does not have is served by nothing at all, one it has in the rights of its entry. */
  ghost predicate ByUser(req: Request, passwd: map<Text, Account>, w0: World, w1: World) {
    forall name :: HasUser(req, name) ==>
      if CString(name) in passwd then
        var a := passwd[CString(name)]; CallsMadeWith(w0, w1, a.uid, a.gid, a.groups + {a.gid})
      else w1 == w0
  }

  lemma ScopedByUser(req: Request, passwd: map<Text, Account>, enters: bool, validIds: set<int>, w0: World, w1: World)
    requires Scoped(w0, PrincipalOf(passwd, req), enters, validIds, w1) && (!enters ==> w1 == w0)
    ensures ByUser(req, passwd, w0, w1)
  {
    hide Leaves, LeftBy;
  }

  lemma LeavesNothing(w: World, p: Principal, validIds: set<int>)
    ensures Leaves(w.creds, p, validIds, w.creds) && Scoped(w, p, false, validIds, w)
    ensures !p.AsUser? ==> Scoped(w, p, true, validIds, w)
  {
  }

  /** The process while it runs as `p`. */
  predicate Inside(own: Creds, p: Principal, validIds: set<int>, creds: Creds, dropped: bool, savedEgid: int) {
    match p
    case AsDaemon => !dropped && creds == own
    case AsUser(_, a) =>
      && dropped && savedEgid == own.egid && own.euid == 0 && a.gid in validIds && a.uid in validIds
      && creds == own.(groups := GroupsOf(a), egid := a.gid, euid := a.uid)
    case Unknown(_) => false
  }

  /** Run as the requested user, or not at all. */
  method EnterScope(k: Process, p: Principal) returns (guard: PrivGuard, entered: bool)
    requires k.Ready() && !p.Unknown?
    requires p.AsUser? ==> Name(p.name) in k.passwd && k.passwd[Name(p.name)] == p.account
    modifies k`creds, k`faults
    ensures k.faults >= old(k.faults)
            && (k.faults == old(k.faults) ==> entered == MayRunAs(p, old(k.creds), k.validIds))
    ensures fresh(guard)
    ensures entered ==> Inside(old(k.creds), p, k.validIds, k.creds, guard.dropped, guard.savedEgid)
                        && MayRunAs(p, old(k.creds), k.validIds) && ActsFor(k.creds, p, old(k.creds))
    ensures p.AsDaemon? ==> entered && k.creds == old(k.creds)
    ensures entered && p.AsUser? ==> k.creds.euid == p.account.uid && k.creds.egid == p.account.gid
    ensures !entered ==> !guard.dropped && Leaves(old(k.creds), p, k.validIds, k.creds)
    ensures !entered && k.faults == old(k.faults) ==> k.creds == LeftBy(old(k.creds), p, k.validIds)
  {
    guard := new PrivGuard();
    if p.AsUser? {
      guard.Drop(k, p.name, p.account);
    }
    entered := guard.okFlag;
  }

  /** Between the two ends of a scope, entered or not. */
  lemma ScopeHeld(w0: World, p: Principal, validIds: set<int>, entered: bool, inside: Creds, w1: World)
    requires !p.Unknown? && w0.faults <= w1.faults && Leaves(w0.creds, p, validIds, w1.creds)
    requires entered ==> MayRunAs(p, w0.creds, validIds) && ActsFor(inside, p, w0.creds)
                         && MadeAs(w0.calls, w1.calls, inside) && w1.creds == LeftBy(w0.creds, p, validIds)
    requires !entered ==> w1 == w0.(creds := w1.creds, faults := w1.faults)
                          && (w1.faults == w0.faults ==> w1.creds == LeftBy(w0.creds, p, validIds))
    ensures Scoped(w0, p, true, validIds, w1)
  {
  }

  /** The guard's destructor, on whichever exit. */
  method LeaveScope(guard: PrivGuard, k: Process, ghost own: Creds, ghost p: Principal)
    requires (own.euid == 0 ==> own.ruid == 0) && 0 in k.validIds && own.egid in k.validIds
    requires Inside(own, p, k.validIds, k.creds, guard.dropped, guard.savedEgid)
             || (!guard.dropped && Leaves(own, p, k.validIds, k.creds))
    modifies k`creds
    ensures Leaves(own, p, k.validIds, k.creds)
    ensures k.creds == if old(Inside(own, p, k.validIds, k.creds, guard.dropped, guard.savedEgid))
                       then LeftBy(own, p, k.validIds) else old(k.creds)
    ensures (k.creds.euid == 0 ==> k.creds.ruid == 0) && k.creds.egid in k.validIds
  {
    guard.Restore(k);
  }

  method WriteFile(id: real, req: Request, k: Process, codec: Codec) returns (resp: Response, ghost w: WriterLog)
    requires k.Ready()
    modifies k`fs, k`calls, k`faults, k`creds, k`history
    ensures var p, text := PrincipalOf(k.passwd, req), FindText(req, "content");
            var j := JobOf(k.pid, req, if text.Some? then codec.fromBase64(text.value) else [], p, old(k.creds));
            && Wrought(old(k.history), k.history, k.alone, j, w) && Reports(resp, id, j, w)
            && (k.alone && k.faults == old(k.faults) ==>
                  Settles(j, old(k.fs), Hindrance(WriteProblem(req), p, old(k.creds), k.validIds), w, resp, id))
            && Scoped(old(k.Now()), p, HasWriteFields(req), k.validIds, k.Now())
            && Refuses(Hindrance(WriteProblem(req), p, old(k.creds), k.validIds), resp, id)
    ensures WriteProblem(req).Some? ==> k.Now() == old(k.Now())
    ensures ByUser(req, k.passwd, old(k.Now()), k.Now())
    ensures TurnedBack(resp) ==> k.calls == old(k.calls)
    ensures k.Ready() && k.faults >= old(k.faults) && Extends(old(k.history), k.history)
  {
    hide Wrought, Leaves, Valid, CanWrite, IsRun, Scoped, Extends, MayRunAs, ByUser;
    ScopedByUser(req, k.passwd, false, k.validIds, k.Now(), k.Now()) by {
      LeavesNothing(k.Now(), PrincipalOf(k.passwd, req), k.validIds);
    }
    var p, path, content := PrincipalOf(k.passwd, req), FindText(req, "path"), FindText(req, "content");
    w := WriterLog(None, false);
    LeavesNothing(k.Now(), p, k.validIds);
    Refused(k.history, k.alone, JobOf(k.pid, req, if content.Some? then codec.fromBase64(content.value) else [], p,
                                      k.creds));
    Itself(k.history);
    if path.None? {
      return Failed(id, BadPath), w;
    }
    if content.None? {
      return Failed(id, BadContent), w;
    }
    if p.Unknown? {
      return Failed(id, UnknownUser(p.name)), w;
    }
    resp, w := WriteFileScoped(id, req, p, content.value, k, codec);
    ScopedByUser(req, k.passwd, true, k.validIds, old(k.Now()), k.Now());
  }

  /** write_file for a user that is known, or for the daemon itself. */
  method WriteFileScoped(id: real, req: Request, p: Principal, content: Text, k: Process, codec: Codec)
    returns (resp: Response, ghost w: WriterLog)
    requires k.Ready() && FindText(req, "path").Some? && p == PrincipalOf(k.passwd, req) && !p.Unknown?
    modifies k`fs, k`calls, k`faults, k`creds, k`history
    ensures var j := JobOf(k.pid, req, codec.fromBase64(content), p, old(k.creds));
            var problem := RightsProblem(p, MayRunAs(p, old(k.creds), k.validIds));
            && Wrought(old(k.history), k.history, k.alone, j, w) && Reports(resp, id, j, w)
            && (k.alone && k.faults == old(k.faults) ==> Settles(j, old(k.fs), problem, w, resp, id))
            && Scoped(old(k.Now()), p, true, k.validIds, k.Now()) && Refuses(problem, resp, id)
    ensures TurnedBack(resp) ==> k.calls == old(k.calls)
    ensures k.Ready() && k.faults >= old(k.faults) && Extends(old(k.history), k.history)
  {
    hide Wrought, Inside, Leaves, Valid, CanWrite, IsRun, Scoped, LeftBy, ActsFor, MadeAs, Extends;
    ghost var j := JobOf(k.pid, req, codec.fromBase64(content), p, k.creds);
    Refused(k.history, k.alone, j);
    w := WriterLog(None, false);
    var guard, entered := EnterScope(k, p);
    ghost var inside := k.creds;
    if !entered {
      resp := Failed(id, CannotRunAs(p.name));
    } else {
      resp, w := WriteFileAs(id, PathOf(req), content, ModeOf(req), k, codec, j);
    }
    WroughtExtends(old(k.history), k.history, k.alone, j, w);
    LeaveScope(guard, k, old(k.creds), p);
    ScopeHeld(old(k.Now()), p, k.validIds, entered, inside, k.Now());
  }

  lemma WroughtExtends(h0: Run, h: Run, alone: bool, j: Job, w: WriterLog)
    requires Wrought(h0, h, alone, j, w)
    ensures Extends(h0, h)
  {
  }

  /** put_file's outcome when the body length is known. Every exit that keeps the connection has consumed
      exactly the body and sent one truthful line; any other means the socket failed or the body was cut off. A file
      is installed only if all of the body had arrived. */
  ghost predicate PutDone(rc: Rc, id: real, total: nat, j: Job, w: WriterLog, input0: Text, input1: Text,
                          broken0: bool, broken1: bool, replies0: seq<Reply>, replies1: seq<Reply>) {
    && (w.ok ==> total <= |input0|)
    && if rc == Continue then
      && BodyConsumed(input0, input1, total) && broken1 == broken0
      && OneMore(replies0, replies1) && Reports(replies1[|replies0|].resp, id, j, w)
    else (broken1 || total > |input0|) && replies1 == replies0
  }

  /** An upload that was answered: a user who is unknown or may not be run as is named, and then no call was made; in
      quiet the answer is settled. */
  predicate PutAnswered(r: Response, id: real, j: Job, p: Principal, w: WriterLog, alone: bool, w0: World, w1: World,
                        validIds: set<int>) {
    var problem := Hindrance(None, p, w0.creds, validIds);
    && Refuses(problem, r, id) && (TurnedBack(r) ==> w1.calls == w0.calls)
    && (alone && w1.faults == w0.faults ==> Settles(j, w0.fs, problem, w, r, id))
  }

  /** put_file, once the header is understood: find the user, drop to it, upload, restore. */
  method PutFileScoped(id: real, req: Request, total: nat, conn: Socket, k: Process)
    returns (rc: Rc, ghost w: WriterLog)
    requires k.Ready() && conn.Tracks() && FindText(req, "path").Some?
    modifies conn, k`fs, k`calls, k`faults, k`creds, k`history
    ensures k.Ready() && conn.Tracks() && (old(conn.broken) ==> conn.broken) && rc != NotStreaming
            && k.faults >= old(k.faults)
    ensures Extends(old(k.history), k.history)
    ensures var p := PrincipalOf(k.passwd, req);
            var j := JobOf(k.pid, req, BodyOf(old(conn.input), total), p, old(k.creds));
            && Wrought(old(k.history), k.history, k.alone, j, w)
            && PutDone(rc, id, total, j, w, old(conn.input), conn.input, old(conn.broken), conn.broken,
                       old(conn.replies), conn.replies)
            && (rc == Continue ==> PutAnswered(conn.replies[|old(conn.replies)|].resp, id, j, p, w, k.alone,
                                               old(k.Now()), k.Now(), k.validIds))
            && Scoped(old(k.Now()), p, true, k.validIds, k.Now())
    ensures ByUser(req, k.passwd, old(k.Now()), k.Now())
  {
    hide Wrought, Leaves, Valid, Encode, CanWrite, IsRun, Scoped, Extends, ByUser;
    var p := PrincipalOf(k.passwd, req);
    if p.Unknown? {
      w := WriterLog(None, false);
      LeavesNothing(k.Now(), p, k.validIds);
      Refused(k.history, k.alone, JobOf(k.pid, req, BodyOf(conn.input, total), p, k.creds));
      Itself(k.history);
      rc := DrainAndFail(conn, total, Failed(id, UnknownUser(p.name)));
    } else {
      rc, w := PutFileInScope(id, req, total, p, conn, k);
    }
    ScopedByUser(req, k.passwd, true, k.validIds, old(k.Now()), k.Now());
  }

  /** put_file for a user that is known, or for the daemon itself. */
  method PutFileInScope(id: real, req: Request, total: nat, p: Principal, conn: Socket, k: Process)
    returns (rc: Rc, ghost w: WriterLog)
    requires k.Ready() && conn.Tracks() && FindText(req, "path").Some? && p == PrincipalOf(k.passwd, req) && !p.Unknown?
    modifies conn, k`fs, k`calls, k`faults, k`creds, k`history
    ensures k.Ready() && conn.Tracks() && (old(conn.broken) ==> conn.broken) && rc != NotStreaming
            && k.faults >= old(k.faults)
    ensures Extends(old(k.history), k.history)
    ensures var j := JobOf(k.pid, req, BodyOf(old(conn.input), total), p, old(k.creds));
            && Wrought(old(k.history), k.history, k.alone, j, w)
            && PutDone(rc, id, total, j, w, old(conn.input), conn.input, old(conn.broken), conn.broken,
                       old(conn.replies), conn.replies)
            && (rc == Continue ==> PutAnswered(conn.replies[|old(conn.replies)|].resp, id, j, p, w, k.alone,
                                               old(k.Now()), k.Now(), k.validIds))
            && Scoped(old(k.Now()), p, true, k.validIds, k.Now())
  {
    hide Wrought, Inside, Leaves, Valid, Encode, CanWrite, IsRun, Scoped, LeftBy, ActsFor, MadeAs, Extends;
    ghost var j := JobOf(k.pid, req, BodyOf(conn.input, total), p, k.creds);
    Refused(k.history, k.alone, j);
    w := WriterLog(None, false);
    var guard, entered := EnterScope(k, p);
    ghost var inside := k.creds;
    if !entered {
      rc := DrainAndFail(conn, total, Failed(id, CannotRunAs(p.name)));
    } else {
      rc, w := PutFileAs(id, PathOf(req), total, ModeOf(req), conn, k, j);
    }
    WroughtExtends(old(k.history), k.history, k.alone, j, w);
    LeaveScope(guard, k, old(k.creds), p);
    ScopeHeld(old(k.Now()), p, k.validIds, entered, inside, k.Now());
  }

  /** put_file. A header without a usable length closes the connection and touches nothing. */
  method PutFile(id: real, req: Request, conn: Socket, k: Process) returns (rc: Rc, ghost w: WriterLog)
    requires k.Ready() && conn.Tracks()
    modifies conn, k`fs, k`calls, k`faults, k`creds, k`history
    ensures k.Ready() && conn.Tracks() && (old(conn.broken) ==> conn.broken) && rc != NotStreaming
            && k.faults >= old(k.faults)
    ensures Extends(old(k.history), k.history) && ByUser(req, k.passwd, old(k.Now()), k.Now())
    ensures rc == Continue ==>
              TellsLength(req) && forall bytes :: HasBytes(req, bytes) ==>
                bytes.Floor <= |old(conn.input)| && conn.input == old(conn.input)[bytes.Floor..]
    ensures PutBytes(req).None? ==>
              && k.Now() == old(k.Now()) && conn.input == old(conn.input) && !w.ok
              && rc != Continue && (rc == Threw ==> conn.broken && conn.replies == old(conn.replies))
              && (rc == MustClose ==> conn.broken == old(conn.broken) && OneMore(old(conn.replies), conn.replies)
                                      && UploadProblem(req).Some?
                                      && Refuses(UploadProblem(req), conn.replies[|old(conn.replies)|].resp, id))
    ensures PutBytes(req).Some? ==>
              var total, p := PutBytes(req).value, PrincipalOf(k.passwd, req);
              var j := JobOf(k.pid, req, BodyOf(old(conn.input), total), p, old(k.creds));
              && Wrought(old(k.history), k.history, k.alone, j, w)
              && PutDone(rc, id, total, j, w, old(conn.input), conn.input, old(conn.broken), conn.broken,
                         old(conn.replies), conn.replies)
              && (rc == Continue ==> PutAnswered(conn.replies[|old(conn.replies)|].resp, id, j, p, w, k.alone,
                                                 old(k.Now()), k.Now(), k.validIds))
              && Scoped(old(k.Now()), p, true, k.validIds, k.Now())
  {
    hide Wrought, Scoped, Valid, Encode, Settles, IsRun, Reports, PutAnswered;
    var path, bytes := FindText(req, "path"), FindNumber(req, "bytes");
    w := WriterLog(None, false);
    Unmoved(k.history, k.alone);
    if path.None? || bytes.None? || bytes.value < 0.0 {
      var problem := if path.None? then BadPath else if bytes.None? then BadBytes else NegativeBytes;
      var sent := conn.SendLine(Failed(id, problem));
      return if sent then MustClose else Threw, w;
    }
    rc, w := PutFileScoped(id, req, Truncated(bytes.value), conn, k);
  }

  // ---------------------------------------------------------------- the readers

  method ReadFile(id: real, req: Request, k: Process, codec: Codec) returns (resp: Response)
    requires k.Ready()
    modifies k`calls, k`creds, k`faults, k`fs, k`history
    ensures k.Ready() && k.faults >= old(k.faults) && LooksOn(old(k.history), k.history, k.alone)
    ensures PathProblem(req).Some? ==> k.Now() == old(k.Now())
    ensures Slurped(old(k.history), k.history, k.pid, resp, id, PathOf(req), codec)
    ensures k.alone ==> ReadAnswer(resp, id, PathOf(req), NodeAt(old(k.fs), req), codec)
    ensures var problem := Hindrance(PathProblem(req), PrincipalOf(k.passwd, req), old(k.creds), k.validIds);
            && Refuses(problem, resp, id)
            && (k.alone && k.faults == old(k.faults) ==>
                  && resp.Contents? == (problem.None? && IsFile(NodeAt(old(k.fs), req)))
                  && (problem.None? ==> NoFile(resp, id, NodeAt(old(k.fs), req))))
    ensures TurnedBack(resp) ==> k.calls == old(k.calls)
    ensures Scoped(old(k.Now()), PrincipalOf(k.passwd, req), FindText(req, "path").Some?, k.validIds, k.Now())
  {
    hide Inside, Leaves, Valid, IsRun, Began, Scoped, LeftBy, ActsFor, MadeAs, Slurped, ReadAnswer;
    var p := PrincipalOf(k.passwd, req);
    LeavesNothing(k.Now(), p, k.validIds);
    Unmoved(k.history, k.alone);
    if FindText(req, "path").None? {
      SlurpError(k.history, k.history, k.pid, id, BadPath, PathOf(req), NodeAt(k.fs, req), codec);
      return Failed(id, BadPath);
    }
    if p.Unknown? {
      SlurpError(k.history, k.history, k.pid, id, UnknownUser(p.name), PathOf(req), NodeAt(k.fs, req), codec);
      return Failed(id, UnknownUser(p.name));
    }
    var guard, entered := EnterScope(k, p);
    ghost var inside := k.creds;
    if !entered {
      resp := Failed(id, CannotRunAs(p.name));
      SlurpError(k.history, k.history, k.pid, id, CannotRunAs(p.name), PathOf(req), NodeAt(k.fs, req), codec);
    } else {
      resp := ReadFileAs(id, PathOf(req), k, codec);
    }
    LeaveScope(guard, k, old(k.creds), p);
    ScopeHeld(old(k.Now()), p, k.validIds, entered, inside, k.Now());
  }

  /** get_file's outcome: a reply true of what was sent, or the socket failed. */
  ghost predicate GetDone(rc: Rc, id: real, req: Request, pid: nat, alone: bool, problem: Option<Problem>,
                          w0: World, w1: World, broken0: bool, broken1: bool, replies0: seq<Reply>,
                              replies1: seq<Reply>, readFailed: bool) {
    && LooksOn(w0.history, w1.history, alone) && w0.faults <= w1.faults
    && (alone && readFailed ==> w1.faults > w0.faults)
    && if rc == Continue then
         && broken1 == broken0 && OneMoreReply(replies0, replies1)
         && var r, node := replies1[|replies0|], NodeAt(w0.fs, req);
            && Sent(w0.history, w1.history, pid, r, id, PathOf(req), readFailed, w1.faults > w0.faults)
            && (alone ==> GetAnswer(r, id, PathOf(req), node, readFailed))
            && Refuses(problem, r.resp, id)
            && (alone && w1.faults == w0.faults ==>
                  r.resp.Sending? == (problem.None? && IsFile(node)) && (problem.None? ==> NoFile(r.resp, id, node)))
            && (TurnedBack(r.resp) ==> w1.calls == w0.calls)
       else rc != NotStreaming && broken1 && LateReply(replies0, replies1, id) && !readFailed
  }

  /** The request was refused before anything was opened. */
  lemma GetRefused(id: real, e: Problem, req: Request, pid: nat, alone: bool, problem: Option<Problem>, w0: World,
                   w1: World, broken0: bool, replies0: seq<Reply>)
    requires IsRun(w0.history) && w1.history == w0.history && w1.calls == w0.calls && w0.faults <= w1.faults
    requires if w1.faults == w0.faults then problem == Some(e) else problem.Some? ==> problem.value == e
    ensures GetDone(Continue, id, req, pid, alone, problem, w0, w1, broken0, broken0, replies0,
                    replies0 + [Reply(Failed(id, e), [])], false)
    ensures GetDone(Threw, id, req, pid, alone, problem, w0, w1, broken0, true, replies0, replies0, false)
  {
  }

  method GetFile(id: real, req: Request, conn: Socket, k: Process) returns (rc: Rc, readFailed: bool)
    requires k.Ready() && conn.Tracks()
    modifies conn`output, conn`replies, conn`broken, k`calls, k`creds, k`faults, k`fs, k`history
    ensures k.Ready() && conn.Tracks() && (old(conn.broken) ==> conn.broken)
    ensures PathProblem(req).Some? ==> k.Now() == old(k.Now())
    ensures var p := PrincipalOf(k.passwd, req);
            && GetDone(rc, id, req, k.pid, k.alone, Hindrance(PathProblem(req), p, old(k.creds), k.validIds),
                       old(k.Now()), k.Now(), old(conn.broken), conn.broken, old(conn.replies), conn.replies,
                           readFailed)
            && Scoped(old(k.Now()), p, FindText(req, "path").Some?, k.validIds, k.Now())
  {
    hide Leaves, Valid, Encode, IsRun, GetDone, Scoped;
    var p := PrincipalOf(k.passwd, req);
    LeavesNothing(k.Now(), p, k.validIds);
    if FindText(req, "path").None? || p.Unknown? {
      var problem := if FindText(req, "path").None? then BadPath else UnknownUser(p.name);
      GetRefused(id, problem, req, k.pid, k.alone, Some(problem), k.Now(), k.Now(), conn.broken, conn.replies);
      var sent := conn.SendLine(Failed(id, problem));
      return if sent then Continue else Threw, false;
    }
    rc, readFailed := GetFileScoped(id, req, p, conn, k);
  }

  /** get_file for a user that is known, or for the daemon itself. */
  method GetFileScoped(id: real, req: Request, p: Principal, conn: Socket, k: Process)
    returns (rc: Rc, readFailed: bool)
    requires k.Ready() && conn.Tracks() && FindText(req, "path").Some? && p == PrincipalOf(k.passwd, req) && !p.Unknown?
    modifies conn`output, conn`replies, conn`broken, k`calls, k`creds, k`faults, k`fs, k`history
    ensures k.Ready() && conn.Tracks() && (old(conn.broken) ==> conn.broken)
    ensures GetDone(rc, id, req, k.pid, k.alone, Hindrance(PathProblem(req), p, old(k.creds), k.validIds),
                    old(k.Now()), k.Now(), old(conn.broken), conn.broken, old(conn.replies), conn.replies, readFailed)
    ensures Scoped(old(k.Now()), p, true, k.validIds, k.Now())
  {
    hide Inside, Leaves, Valid, Encode, IsRun, Began, Sent, GetAnswer, LooksOn, Scoped, LeftBy, ActsFor, MadeAs;
    var guard, entered := EnterScope(k, p);
    ghost var inside := k.creds;
    if !entered {
      GetRefused(id, CannotRunAs(p.name), req, k.pid, k.alone,
                 Hindrance(PathProblem(req), p, old(k.creds), k.validIds), old(k.Now()), k.Now(), conn.broken,
                 conn.replies);
      var sent := conn.SendLine(Failed(id, CannotRunAs(p.name)));
      rc, readFailed := if sent then Continue else Threw, false;
    } else {
      ghost var faults := k.faults;
      rc, readFailed := GetFileAs(id, PathOf(req), conn, k);
      if rc == Continue {
        StillSent(old(k.history), k.history, k.pid, conn.replies[|old(conn.replies)|], id, PathOf(req), readFailed,
                  k.faults > faults);
      }
    }
    LeaveScope(guard, k, old(k.creds), p);
    ScopeHeld(old(k.Now()), p, k.validIds, entered, inside, k.Now());
  }

  /** stat and list_dir: a required path, the same run-as rules, and a look at the name, or in the directory. */
  method Metadata(id: real, req: Request, listing: bool, k: Process) returns (resp: Response)
    requires k.Ready()
    modifies k`calls, k`faults, k`creds, k`fs, k`history
    ensures k.Ready() && k.faults >= old(k.faults) && LooksOn(old(k.history), k.history, k.alone)
    ensures PathProblem(req).Some? ==> k.Now() == old(k.Now())
    ensures (resp.Failed? || resp == Answered(id, true)) && resp.id == id
    ensures resp.Answered? ==> Shows(k.fs, PathOf(req), listing)
    ensures var problem := Hindrance(PathProblem(req), PrincipalOf(k.passwd, req), old(k.creds), k.validIds);
            && Refuses(problem, resp, id)
            && (k.faults == old(k.faults) ==>
                  && resp.Answered? == (problem.None? && Shows(k.fs, PathOf(req), listing))
                  && (resp.Failed? && problem.None? ==> resp == Failed(id, SystemError)))
    ensures TurnedBack(resp) ==> k.calls == old(k.calls)
    ensures Scoped(old(k.Now()), PrincipalOf(k.passwd, req), FindText(req, "path").Some?, k.validIds, k.Now())
  {
    hide Inside, Leaves, Valid, IsRun, Scoped, LeftBy, ActsFor;
    var p := PrincipalOf(k.passwd, req);
    LeavesNothing(k.Now(), p, k.validIds);
    Unmoved(k.history, k.alone);
    if FindText(req, "path").None? {
      return Failed(id, BadPath);
    }
    if p.Unknown? {
      return Failed(id, UnknownUser(p.name));
    }
    var guard, entered := EnterScope(k, p);
    ghost var inside := k.creds;
    if !entered {
      resp := Failed(id, CannotRunAs(p.name));
    } else {
      var ok := k.Inspect(PathOf(req), listing);
      resp := if ok then Answered(id, true) else Failed(id, SystemError);
    }
    LeaveScope(guard, k, old(k.creds), p);
    ScopeHeld(old(k.Now()), p, k.validIds, entered, inside, k.Now());
  }
}
