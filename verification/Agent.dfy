/** The daemon's request handling: the auth gate, routing, and the loop over one connection. */
module Agent {
  import opened Base
  import opened Octets
  import opened FileSystem
  import Concurrency
  import opened Framing
  import opened Connection
  import opened Kernel
  import opened Requests
  import opened Writes
  import opened FileVerbs
  import opened Answers
  import opened Sessions
  import Search
  import Shell

  class Server {
    const codec: Codec
    var open: bool
    var haveSecret: bool
    var secret: Text
    var shutdownRequested: bool
    ghost var log: seq<LogEntry>

    constructor (codec: Codec)
      ensures this.codec == codec && !shutdownRequested && log == []
      ensures GateValue() == Gate(false, None)
    {
      this.codec := codec;
      open, haveSecret, secret, shutdownRequested, log := false, false, [], false, [];
    }

    function GateValue(): Gate
      reads this`open, this`haveSecret, this`secret
    {
      Gate(open, if haveSecret then Some(secret) else None)
    }

    /** An empty secret is no secret. */
    method SetSecret(s: Option<Text>)
      modifies this`haveSecret, this`secret
      ensures GateValue() == Gate(open, if s == Some([]) then None else s)
    {
      if s.Some? && s.value != [] {
        secret := s.value;
        haveSecret := true;
      } else {
        haveSecret := false;
      }
    }

    method SetOpen(b: bool)
      modifies this`open
      ensures GateValue() == old(GateValue()).(open := b)
    {
      open := b;
    }

    /** Every byte is looked at whatever the earlier ones were, and the answer is still equality. */
    method SecretEquals(got: Text) returns (same: bool)
      ensures same <==> got == secret
    {
      if |got| != |secret| {
        return false;
      }
      var r: bv8 := 0;
      for i := 0 to |secret|
        invariant r == 0 <==> got[..i] == secret[..i]
      {
        XorZero(got[i], secret[i]);
        OrZero(r, Bits(got[i]) ^ Bits(secret[i]));
        r := r | (Bits(got[i]) ^ Bits(secret[i]));
        assert got[..i + 1] == got[..i] + [got[i]] && secret[..i + 1] == secret[..i] + [secret[i]];
      }
      assert got[..|got|] == got && secret[..|secret|] == secret;
      return r == 0;
    }

    method AuthOk(req: Request) returns (ok: bool)
      ensures ok <==> Admits(GateValue(), req)
    {
      if open {
        return true;
      }
      if !haveSecret {
        return false;
      }
      var auth := FindText(req, "auth");
      if auth.None? {
        return false;
      }
      ok := SecretEquals(auth.value);
    }

    // -------------------------------------------------------------- line verbs

    ghost function SettingOf(k: Process, grepBin: Text): Setting
      reads this`open, this`haveSecret, this`secret
    {
      Setting(codec, GateValue(), grepBin, k.pid, k.passwd, k.validIds, k.alone)
    }

    /** search: the shell reads back the intended grep words, and the answer is the first matches of its output. */
    method SearchFiles(id: real, req: Request, k: Process, grepBin: Text) returns (resp: Response)
      modifies k`commands
      ensures resp.id == id && Promised(resp) == 0 && !TurnedBack(resp)
      ensures FindText(req, "pattern").None? ==> resp == Failed(id, BadPattern) && k.commands == old(k.commands)
      ensures FindText(req, "pattern").Some? ==>
                && OneCommand(old(k.commands), k.commands)
                && var ran := k.commands[|old(k.commands)|];
                   SearchCommand(ran.text, grepBin, req) && SearchAnswer(resp, req, ran)
    {
      hide Search.AllMatches;
      var pattern := FindText(req, "pattern");
      if pattern.None? {
        return Failed(id, BadPattern);
      }
      var command := Shell.AssembleCommand(grepBin, IgnoresCase(req), pattern.value, SearchPath(req));
      var rc, text := k.RunQuery(command);
      var matches, count, truncated := [], 0, false;
      if rc <= 1 {
        matches, count, truncated := Search.ScanOutput(text, Search.Cap(req));
      }
      resp := Found(id, rc < 2, count, truncated, rc, matches);
    }

    /** Every verb but the streaming two. A request that is not admitted has no effect but its answer. */
    method Dispatch(line: Text, k: Process, grepBin: Text) returns (resp: Response, ghost w: WriterLog)
      requires k.Ready() && !IsStreaming(codec.parse, line)
      modifies this`shutdownRequested, k
      ensures k.Ready()
      ensures resp.id == LineId(codec.parse, line) && Promised(resp) == 0
      ensures shutdownRequested == (old(shutdownRequested) || Asks(codec.parse, GateValue(), line))
      ensures Truthful(SettingOf(k, grepBin),
                       Stage(Frame(line, []), old(k.Now()), k.Now(), Some(Reply(resp, [])), w, false))
    {
      hide VerbTruth, Confined, VerbOf;
      w := WriterLog(None, false);
      var parsed := codec.parse(line);
      if !parsed.Object? {
        return Failed(0.0, Protocol), w;
      }
      var req := parsed.req;
      var id, verb := IdOf(req), VerbOf(req);
      if verb == NoVerb {
        QuietTruth(SettingOf(k, grepBin), req,
                   Stage(Frame(line, []), k.Now(), k.Now(), Some(Reply(Failed(id, NoVerbGiven), [])), w, false));
        return Failed(id, NoVerbGiven), w;
      }
      var ok := AuthOk(req);
      if !ok {
        return Failed(id, Unauthorized), w;
      }
      resp, w := RunVerb(id, verb, req, k, grepBin, line);
    }

    /** The handlers, entered only behind the gate. */
    method RunVerb(id: real, verb: Verb, req: Request, k: Process, grepBin: Text, ghost line: Text)
      returns (resp: Response, ghost w: WriterLog)
      requires k.Ready() && Admits(GateValue(), req)
      requires verb == VerbOf(req) && id == IdOf(req) && verb != PutFileVerb && verb != GetFileVerb
      requires verb != NoVerb
      modifies this`shutdownRequested, k
      ensures k.Ready() && k.faults >= old(k.faults) && Concurrency.Extends(old(k.history), k.history)
      ensures resp.id == id && Promised(resp) == 0
      ensures shutdownRequested == (old(shutdownRequested) || verb == ShutdownVerb)
      ensures var t := Stage(Frame(line, []), old(k.Now()), k.Now(), Some(Reply(resp, [])), w, false);
              VerbTruth(SettingOf(k, grepBin), req, t) && Confined(SettingOf(k, grepBin), req, t)
    {
      hide Valid, VerbOf, SearchCommand, SearchAnswer, VerbTruth, Confined, Concurrency.IsRun, Concurrency.IsIdle,
           Concurrency.Extends, OneCommand, PrincipalOf;
      w := WriterLog(None, false);
      Concurrency.Itself(k.history);
      if verb == ReadFileVerb || verb == WriteFileVerb || verb == StatVerb || verb == ListDirVerb {
        resp, w := RunFileVerb(id, verb, req, k, grepBin, line);
      } else if verb == RunCommandVerb {
        resp := RunCommand(id, req, k);
        CommandTruth(SettingOf(k, grepBin), req,
                     Stage(Frame(line, []), old(k.Now()), k.Now(), Some(Reply(resp, [])), w, false));
      } else if verb == SearchVerb {
        resp := SearchFiles(id, req, k, grepBin);
        QueryTruth(SettingOf(k, grepBin), req,
                   Stage(Frame(line, []), old(k.Now()), k.Now(), Some(Reply(resp, [])), w, false));
      } else {
        if verb == ShutdownVerb {
          shutdownRequested := true;
          resp := Acknowledged(id);
        } else {
          resp := if verb == HelloVerb || verb == SysInfoVerb then Answered(id, true) else Failed(id, NoSuchVerb);
        }
        QuietTruth(SettingOf(k, grepBin), req,
                   Stage(Frame(line, []), old(k.Now()), k.Now(), Some(Reply(resp, [])), w, false));
      }
    }

    /** The line verbs that look at files in the user's rights. */
    method RunFileVerb(id: real, verb: Verb, req: Request, k: Process, ghost grepBin: Text, ghost line: Text)
      returns (resp: Response, ghost w: WriterLog)
      requires k.Ready() && verb == VerbOf(req) && id == IdOf(req)
      requires verb == ReadFileVerb || verb == WriteFileVerb || verb == StatVerb || verb == ListDirVerb
      modifies k`fs, k`calls, k`faults, k`creds, k`history
      ensures k.Ready() && k.faults >= old(k.faults) && Concurrency.Extends(old(k.history), k.history)
      ensures resp.id == id && Promised(resp) == 0
      ensures var t := Stage(Frame(line, []), old(k.Now()), k.Now(), Some(Reply(resp, [])), w, false);
              VerbTruth(SettingOf(k, grepBin), req, t) && Confined(SettingOf(k, grepBin), req, t)
    {
      hide Wrought, Scoped, Valid, Settles, VerbOf, VerbTruth, Confined, PrincipalOf, Hindrance,
           Concurrency.IsRun, Concurrency.IsIdle, Concurrency.Extends, TurnedBack;
      w := WriterLog(None, false);
      if verb == ReadFileVerb {
        resp := ReadFile(id, req, k, codec);
        ReadIsTrue(SettingOf(k, grepBin), req,
                   Stage(Frame(line, []), old(k.Now()), k.Now(), Some(Reply(resp, [])), w, false));
      } else if verb == WriteFileVerb {
        resp, w := WriteFile(id, req, k, codec);
        WriteIsTrue(SettingOf(k, grepBin), req,
                    Stage(Frame(line, []), old(k.Now()), k.Now(), Some(Reply(resp, [])), w, false));
      } else {
        resp := Metadata(id, req, verb == ListDirVerb, k);
        LookIsTrue(SettingOf(k, grepBin), req,
                   Stage(Frame(line, []), old(k.Now()), k.Now(), Some(Reply(resp, [])), w, false));
      }
    }

    method RunCommand(id: real, req: Request, k: Process) returns (resp: Response)
      requires k.InStep() && Concurrency.IsIdle(k.history, k.pid)
      modifies k`fs, k`commands, k`history
      ensures k.InStep() && Concurrency.IsIdle(k.history, k.pid) && Concurrency.Extends(old(k.history), k.history)
      ensures resp.id == id && Promised(resp) == 0
      ensures var problem := CommandProblem(req, PrincipalOf(k.passwd, req));
              if problem.Some? then
                k.Now() == old(k.Now()) && resp == Failed(id, problem.value)
              else
                && OneCommand(old(k.commands), k.commands) && resp == Answered(id, true)
                && k.commands[|old(k.commands)|].text == FindText(req, "cmd").value
    {
      var cmd := FindText(req, "cmd");
      if cmd.None? {
        return Failed(id, BadCommand);
      }
      var p := PrincipalOf(k.passwd, req);
      if p.Unknown? {
        return Failed(id, UnknownUser(p.name));
      }
      var _, _ := k.RunShell(cmd.value);
      resp := Answered(id, true);
    }

    // -------------------------------------------------------------- streaming verbs

    /** What decides how a connection's input is taken, as the server stands. */
    ghost function SessionNow(): Session
      reads this
    {
      SessionOf(codec, GateValue(), shutdownRequested)
    }

    /** put_file and get_file own the socket while they run; any other line is left for Dispatch. */
    method HandleStreaming(line: Text, conn: Socket, k: Process, ghost grepBin: Text)
      returns (rc: Rc, ghost readFailed: bool, ghost w: WriterLog)
      requires k.Ready() && conn.Tracks() && !conn.broken && conn.codec == codec
      modifies conn, k
      ensures k.Ready() && conn.Tracks()
      ensures rc == NotStreaming <==> !IsStreaming(codec.parse, line)
      ensures rc == NotStreaming ==>
                && !conn.broken && conn.input == old(conn.input) && conn.replies == old(conn.replies)
                && k.Now() == old(k.Now())
      ensures rc != NotStreaming ==>
                && StreamDone(SessionNow(), line, rc, old(conn.input), conn.input, old(conn.replies), conn.replies,
                              conn.broken)
                && Truthful(SettingOf(k, grepBin),
                            Stage(Frame(line, BodyOf(old(conn.input), BodyLength(SessionNow(), line))), old(k.Now()),
                                  k.Now(), NewOf(old(conn.replies), conn.replies, conn.broken), w, readFailed))
    {
      hide Truthful, StreamDone, Valid, Encode, NewReply, CloseReply, LateReply, BodyOf, SessionOf, BodyLength,
           VerbOf, NewOf, BodyConsumed;
      readFailed, w := false, WriterLog(None, false);
      var parsed := codec.parse(line);
      if !parsed.Object? {
        return NotStreaming, false, w;
      }
      var req := parsed.req;
      var verb := VerbOf(req);
      if verb != PutFileVerb && verb != GetFileVerb {
        return NotStreaming, false, w;
      }
      ghost var body := BodyOf(conn.input, BodyLength(SessionNow(), line));
      var ok := AuthOk(req);
      if !ok {
        rc := TurnAway(line, IdOf(req), conn, k, grepBin, body, w);
      } else if verb == PutFileVerb {
        rc, w := Upload(line, IdOf(req), req, conn, k, grepBin);
      } else {
        rc, readFailed := Download(line, IdOf(req), req, conn, k, grepBin, body, w);
      }
    }

    /** Not admitted: what follows the header cannot be trusted to frame the stream, so the connection closes. */
    method TurnAway(line: Text, id: real, conn: Socket, k: Process, ghost grepBin: Text, ghost body: Text,
                    ghost w: WriterLog)
      returns (rc: Rc)
      requires k.InStep() && conn.Tracks() && !conn.broken && id == LineId(codec.parse, line)
      requires IsStreaming(codec.parse, line) && !AdmittedLine(codec.parse, GateValue(), line)
      modifies conn
      ensures conn.Tracks() && rc != NotStreaming && conn.input == old(conn.input)
      ensures StreamDone(SessionNow(), line, rc, old(conn.input), conn.input, old(conn.replies), conn.replies,
                         conn.broken)
      ensures Truthful(SettingOf(k, grepBin), Stage(Frame(line, body), k.Now(), k.Now(),
                                                    NewOf(old(conn.replies), conn.replies, conn.broken), w, false))
    {
      hide StreamDone, SessionOf, LineId, Encode, VerbTruth, Confined;
      var sent := conn.SendLine(Failed(id, Unauthorized));
      rc := if sent then MustClose else Threw;
      TurnedAway(codec, GateValue(), shutdownRequested, line, rc, conn.input, old(conn.replies), conn.replies,
                 Failed(id, Unauthorized), conn.broken);
    }

    method Upload(line: Text, id: real, req: Request, conn: Socket, k: Process, ghost grepBin: Text)
      returns (rc: Rc, ghost w: WriterLog)
      requires k.Ready() && conn.Tracks() && !conn.broken && id == IdOf(req)
      requires AdmittedLine(codec.parse, GateValue(), line) && codec.parse(line).req == req
               && VerbOf(req) == PutFileVerb
      modifies conn, k
      ensures k.Ready() && conn.Tracks() && rc != NotStreaming
      ensures StreamDone(SessionNow(), line, rc, old(conn.input), conn.input, old(conn.replies), conn.replies,
                         conn.broken)
      ensures Truthful(SettingOf(k, grepBin),
                       Stage(Frame(line, BodyOf(old(conn.input), BodyLength(SessionNow(), line))), old(k.Now()),
                             k.Now(), NewOf(old(conn.replies), conn.replies, conn.broken), w, false))
    {
      hide Truthful, StreamDone, SessionOf, BodyLength, VerbOf, Wrought, Leaves, Valid, Encode, Decided, Scoped,
           Concurrency.IsRun, Concurrency.IsIdle, Concurrency.Extends;
      ghost var body := BodyOf(conn.input, if PutBytes(req).Some? then PutBytes(req).value else 0);
      LeavesNothing(k.Now(), PrincipalOf(k.passwd, req), k.validIds);
      rc, w := PutFile(id, req, conn, k);
      Uploaded(codec, GateValue(), shutdownRequested, line, req, rc, old(conn.input), conn.input, old(conn.replies),
               conn.replies, conn.broken);
      UploadTruth(SettingOf(k, grepBin), req, Stage(Frame(line, body), old(k.Now()), k.Now(),
                                                    NewOf(old(conn.replies), conn.replies, conn.broken), w, false));
    }

    method Download(line: Text, id: real, req: Request, conn: Socket, k: Process, ghost grepBin: Text, ghost body: Text,
                    ghost w: WriterLog)
      returns (rc: Rc, readFailed: bool)
      requires k.Ready() && conn.Tracks() && !conn.broken && id == IdOf(req)
      requires AdmittedLine(codec.parse, GateValue(), line) && codec.parse(line).req == req
               && VerbOf(req) == GetFileVerb
      modifies conn`output, conn`replies, conn`broken, k`calls, k`creds, k`faults, k`fs, k`history
      ensures k.Ready() && conn.Tracks() && rc != NotStreaming
      ensures StreamDone(SessionNow(), line, rc, conn.input, conn.input, old(conn.replies), conn.replies, conn.broken)
      ensures Truthful(SettingOf(k, grepBin), Stage(Frame(line, body), old(k.Now()), k.Now(),
                                                    NewOf(old(conn.replies), conn.replies, conn.broken), w, readFailed))
    {
      hide Truthful, StreamDone, SessionOf, VerbOf, Leaves, Valid, Encode;
      rc, readFailed := GetFile(id, req, conn, k);
      Downloaded(codec, GateValue(), shutdownRequested, line, req, rc, conn.input, old(conn.replies), conn.replies,
                 conn.broken);
      DownloadTruth(SettingOf(k, grepBin), req, Stage(Frame(line, body), old(k.Now()), k.Now(),
                                                      NewOf(old(conn.replies), conn.replies, conn.broken),
                                                      w, readFailed));
    }

    // -------------------------------------------------------------- the connection loop

    /** Remove the newline, and any carriage returns, from the end. */
    method StripEnd(line: Text) returns (s: Text)
      ensures s == Strip(line)
    {
      s := line;
      while |s| > 0
        invariant Strip(s) == Strip(line)
        decreases |s|
      {
        var last := s[|s| - 1];
        if last == '\n' || last == '\r' {
          s := s[..|s| - 1];
        } else {
          break;
        }
      }
    }

    /** Serve one request line: as a streaming verb, or by dispatch and one line back. */
    method ServeLine(line: Text, conn: Socket, k: Process, grepBin: Text) returns (next: Next, ghost t: Stage)
      requires k.Ready() && conn.Tracks() && !conn.broken && conn.codec == codec
      modifies this`shutdownRequested, this`log, conn, k
      ensures k.Ready() && conn.Tracks() && (next == Again ==> !conn.broken)
      ensures var f := Frame(line, BodyOf(old(conn.input), BodyLength(old(SessionNow()), line)));
              && LineTakes(old(SessionNow()), line, old(conn.input), conn.input, next, conn.broken)
              && LineReplies(old(SessionNow()), f, old(conn.replies), conn.replies, next, conn.broken)
              && StageIs(SettingOf(k, grepBin), t, f, old(k.Now()), k.Now(),
                         NewOf(old(conn.replies), conn.replies, conn.broken))
      ensures LineFlag(codec.parse, GateValue(), line, old(shutdownRequested), shutdownRequested, next, old(log), log)
    {
      hide Truthful, Valid, Encode, EffectOf, Asks, LineId, AdmittedLine, IsStreaming, BodyOf, BodyLength;
      hide StreamDone, LineTakes, LineReplies, LineFlag, SessionOf, Ends;
      ghost var session := SessionNow();
      EffectStreams(codec, GateValue(), shutdownRequested, line);
      ghost var f := Frame(line, BodyOf(conn.input, BodyLength(session, line)));
      log := log + [Took(line)];
      var rc;
      ghost var w, readFailed;
      rc, readFailed, w := HandleStreaming(line, conn, k, grepBin);
      if rc != NotStreaming {
        StreamedLine(session, codec, GateValue(), line, old(conn.input), conn.input, old(conn.replies), conn.replies,
                     rc, conn.broken, old(shutdownRequested), old(log));
        t := Stage(f, old(k.Now()), k.Now(), NewOf(old(conn.replies), conn.replies, conn.broken), w, readFailed);
        return if rc == Continue then Again else Stop, t;
      }
      var response;
      response, w := Dispatch(line, k, grepBin);
      t := Stage(f, old(k.Now()), k.Now(), Some(Reply(response, [])), w, false);
      log := log + [Replied(line)];
      var sent := conn.SendLine(response);
      if !sent {
        Unsent(SettingOf(k, grepBin), t);
        t := t.(reply := None);
      }
      next := if !sent || shutdownRequested then Stop else Again;
      AnsweredLine(session, codec, GateValue(), line, conn.input, old(conn.replies), conn.replies, response, next,
                   conn.broken, old(shutdownRequested), shutdownRequested, old(log), log);
    }

    /** One turn of the loop: the next line, and everything it leads to. `took` is the request, if there
        was a line and it was not blank. */
    method ServeOne(conn: Socket, k: Process, grepBin: Text)
      returns (next: Next, ghost took: Option<Frame>, ghost t: Option<Stage>)
      requires k.Ready() && conn.Tracks() && !conn.broken && conn.codec == codec
      modifies this`shutdownRequested, this`log, conn, k
      ensures k.Ready() && conn.Tracks() && (next == Again ==> !conn.broken)
      ensures TurnTakes(old(SessionNow()), old(conn.input), conn.input, took, next, conn.broken)
      ensures t.Some? == took.Some?
      ensures if took.None? then
                && conn.replies == old(conn.replies) && k.Now() == old(k.Now())
                && shutdownRequested == old(shutdownRequested) && log == old(log)
              else
                && LineReplies(old(SessionNow()), took.value, old(conn.replies), conn.replies, next, conn.broken)
                && LineFlag(codec.parse, GateValue(), took.value.line, old(shutdownRequested), shutdownRequested,
                            next, old(log), log)
                && StageIs(SettingOf(k, grepBin), t.value, took.value, old(k.Now()), k.Now(),
                           NewOf(old(conn.replies), conn.replies, conn.broken))
    {
      hide Truthful, Valid, Encode, LineReplies, LineFlag, LineTakes, TurnTakes, Served, AdmittedLine, SessionOf,
           Asks, BodyOf, BodyLength;
      took, t := None, None;
      ghost var session := SessionNow();
      var raw := conn.RecvUntil();
      if raw.None? {
        NothingTaken(session, old(conn.input), conn.input, conn.broken);
        return Stop, None, None;
      }
      ghost var i := IndexOf(old(conn.input), '\n');
      ghost var rest := conn.input;
      StripNewline(old(conn.input)[..i]);
      var line := StripEnd(raw.value);
      if line == [] {
        BlankTaken(session, old(conn.input));
        return Again, None, None;
      }
      ghost var stage;
      next, stage := ServeLine(line, conn, k, grepBin);
      took, t := Some(stage.frame), Some(stage);
      LineTaken(session, old(conn.input), line, rest, conn.input, next, conn.broken);
    }

    /** The whole connection: serve until the peer, the framing, the network or a shutdown ends it, close it,
        and only then run the shutdown command, if one was asked for. */
    method HandleConnection(conn: Socket, k: Process, grepBin: Text)
      returns (ghost served: seq<Frame>, ghost turns: seq<LogEntry>, ghost stages: seq<Stage>)
      requires k.Ready() && conn.Tracks() && !conn.broken && conn.codec == codec && conn.replies == []
      modifies this`shutdownRequested, this`log, conn, k
      ensures k.Ready() && conn.Tracks()
      ensures TakenSoFar(old(SessionNow()), old(conn.input), conn.input, served, Stop, conn.broken)
      ensures AnsweredSoFar(old(SessionNow()), served, conn.replies, Stop, conn.broken)
      ensures FlagSoFar(codec.parse, GateValue(), served, old(shutdownRequested), shutdownRequested, Stop, turns)
      ensures log == old(log) + turns + [Closed] + (if shutdownRequested then [RanCommand] else [])
      ensures Chronicle(SettingOf(k, grepBin), stages, served, conn.replies, old(k.Now()), k.Now(), conn.broken)
      ensures Faithful(codec) && !conn.broken ==>
                && (ClientRead(codec, conn.output) == ReadAs(codec, conn.replies) <==> NoneReadFailed(stages))
                && (k.faults == old(k.faults) && ReadsInPeace(SettingOf(k, grepBin), stages, k.history) ==>
                      ClientRead(codec, conn.output) == ReadAs(codec, conn.replies))
      ensures k.faults == old(k.faults) <==> NoneFaulty(stages)
      ensures CallsAccounted(SettingOf(k, grepBin), stages, old(k.Now()), k.Now())
      ensures k.creds.euid == old(k.creds).euid
      ensures NoHalfAccounts(k.passwd, k.validIds) ==> k.creds.egid == old(k.creds).egid
      ensures AllBegunAs(stages, old(k.creds), NoHalfAccounts(k.passwd, k.validIds))
      ensures NoneAdmitted(codec.parse, GateValue(), served) ==> k.Now() == old(k.Now())
    {
      hide NoneFaulty, CallsAccounted, AllBegunAs, NoneReadFailed, Valid, Encode, Chronicle, TakenSoFar,
           AnsweredSoFar, FlagSoFar, NoneAdmitted, SessionOf, ClientRead, ReadAs, Faithful, NoHalfAccounts,
           ReadsInPeace, Concurrency.IsRun, Concurrency.IsIdle;
      served, turns, stages := [], [], [];
      EmptyChronicle(SettingOf(k, grepBin), k.Now());
      ghost var gate, session := GateValue(), SessionNow();
      NothingYet(session, codec.parse, gate, conn.input, shutdownRequested);
      var next := Again;
      while next == Again
        invariant k.Ready() && conn.Tracks() && GateValue() == gate
        invariant next == Again ==>
                    !conn.broken && shutdownRequested == old(shutdownRequested) && |conn.replies| == |served|
        invariant TakenSoFar(session, old(conn.input), conn.input, served, next, conn.broken)
        invariant AnsweredSoFar(session, served, conn.replies, next, conn.broken)
        invariant FlagSoFar(codec.parse, gate, served, old(shutdownRequested), shutdownRequested, next, turns)
        invariant log == old(log) + turns
        invariant Chronicle(SettingOf(k, grepBin), stages, served, conn.replies, old(k.Now()), k.Now(), conn.broken)
        decreases next == Again, |conn.input|
      {
        next, served, turns, stages :=
          Turn(conn, k, grepBin, session, old(conn.input), old(shutdownRequested), old(log), old(k.Now()), served,
               turns, stages);
      }
      log := log + [Closed];
      if shutdownRequested {
        log := log + [RanCommand];
      }
      WhatItShows(SettingOf(k, grepBin), stages, served, conn.replies, old(k.Now()), k.Now(), conn.broken);
      if Faithful(codec) && !conn.broken {
        ReadBack(SettingOf(k, grepBin), conn.output, stages, served, conn.replies, old(k.Now()), k.Now());
      }
    }

    /** A turn, with the loop's bookkeeping brought up to date. */
    method Turn(conn: Socket, k: Process, grepBin: Text, ghost session: Session, ghost input0: Text, ghost flag0: bool,
                ghost log0: seq<LogEntry>, ghost w0: World, ghost served0: seq<Frame>, ghost turns0: seq<LogEntry>,
                ghost stages0: seq<Stage>)
      returns (next: Next, ghost served: seq<Frame>, ghost turns: seq<LogEntry>, ghost stages: seq<Stage>)
      requires k.Ready() && conn.Tracks() && !conn.broken && conn.codec == codec && shutdownRequested == flag0
      requires session == SessionNow() && log == log0 + turns0 && |conn.replies| == |served0|
      requires TakenSoFar(session, input0, conn.input, served0, Again, false)
      requires AnsweredSoFar(session, served0, conn.replies, Again, false)
      requires FlagSoFar(codec.parse, GateValue(), served0, flag0, flag0, Again, turns0)
      requires Chronicle(SettingOf(k, grepBin), stages0, served0, conn.replies, w0, k.Now(), false)
      modifies this`shutdownRequested, this`log, conn, k
      ensures k.Ready() && conn.Tracks()
      ensures next == Again ==>
                && !conn.broken && shutdownRequested == flag0 && |conn.input| < |old(conn.input)|
                && |conn.replies| == |served|
      ensures TakenSoFar(session, input0, conn.input, served, next, conn.broken)
      ensures AnsweredSoFar(session, served, conn.replies, next, conn.broken)
      ensures FlagSoFar(codec.parse, GateValue(), served, flag0, shutdownRequested, next, turns)
      ensures log == log0 + turns
      ensures Chronicle(SettingOf(k, grepBin), stages, served, conn.replies, w0, k.Now(), conn.broken)
    {
      hide Valid, Encode, TakenSoFar, AnsweredSoFar, FlagSoFar, LineReplies, LineFlag, AdmittedLine, Served,
           Chronicle, StageIs;
      ghost var took, t;
      next, took, t := ServeOne(conn, k, grepBin);
      served, turns, stages := served0 + TookList(took), turns0, stages0;
      TakesOn(session, input0, old(conn.input), conn.input, served0, took, next, conn.broken);
      AnswersOn(session, served0, took, old(conn.replies), conn.replies, next, conn.broken);
      if took.Some? {
        turns := FlagOn(codec.parse, GateValue(), served0, took.value, flag0, shutdownRequested, next, turns0,
                        old(log), log, log0);
        stages := stages + [t.value];
        ChronicleGrows(session, SettingOf(k, grepBin), stages0, t.value, served0, took.value, old(conn.replies),
                       conn.replies, w0, old(k.Now()), k.Now(), next, conn.broken);
      } else {
        FlagIdle(codec.parse, GateValue(), served0, flag0, next, turns0);
        ChronicleIdle(SettingOf(k, grepBin), stages0, served0, conn.replies, w0, k.Now(), conn.broken);
        assert served == served0;
      }
    }
  }
}
