/** One connection as a sequence of turns: what each turn takes from the input, sends back, logs and may do,
    and how the turns add up. */
module Sessions {
  import opened Base
  import opened FileSystem
  import opened Framing
  import opened Kernel
  import opened Requests
  import opened Writes
  import opened Answers
  import Concurrency

  datatype LogEntry = Took(line: Text) | Replied(line: Text) | Closed | RanCommand

  datatype Next = Again | Stop

  /** One more reply, with the request's id. */
  predicate NewReply(before: seq<Reply>, after: seq<Reply>, id: real) {
    |after| == |before| + 1 && after[..|before|] == before && after[|before|].resp.id == id
  }

  /** The replies answer the requests in order, each with its request's id. */
  predicate AnswersInOrder(parse: Text -> Parsed, served: seq<Frame>, replies: seq<Reply>) {
    |replies| <= |served| && forall i :: 0 <= i < |replies| ==> replies[i].resp.id == LineId(parse, served[i].line)
  }

  predicate AsksAmong(parse: Text -> Parsed, g: Gate, served: seq<Frame>) {
    exists f :: f in served && Asks(parse, g, f.line)
  }

  predicate OnlyTurns(events: seq<LogEntry>) {
    forall e :: e in events ==> e.Took? || e.Replied?
  }

  /** The input so far is taken as its meaning says: at the end, nothing of it is left out unless the network broke. */
  predicate TakenSoFar(s: Session, input: Text, rest: Text, served: seq<Frame>, next: Next, broken: bool) {
    if next == Again then Served(s, input) == served + Served(s, rest)
    else served <= Served(s, input) && (!broken ==> served == Served(s, input))
  }

  /** One answer per request, in order; only a last request whose body the client cut off can lack one. */
  predicate AnsweredSoFar(s: Session, served: seq<Frame>, replies: seq<Reply>, next: Next, broken: bool) {
    && AnswersInOrder(s.parse, served, replies)
    && (next == Again ==> |replies| == |served|)
    && (!broken && |replies| < |served| ==>
          var last := served[|served| - 1];
          |replies| + 1 == |served| && |last.body| < BodyLength(s, last.line))
  }

  /** The shutdown flag is up exactly if it was inherited or an admitted request asked; that request is then the
      last one served, and its answer was sent or tried. */
  predicate FlagSoFar(parse: Text -> Parsed, g: Gate, served: seq<Frame>, flag0: bool, flag1: bool, next: Next,
                      turns: seq<LogEntry>) {
    && flag1 == (flag0 || AsksAmong(parse, g, served))
    && (next == Again ==> !AsksAmong(parse, g, served))
    && OnlyTurns(turns)
    && (AsksAmong(parse, g, served) ==>
          var last := served[|served| - 1].line;
          Asks(parse, g, last) && |turns| >= 2 && turns[|turns| - 2..] == [Took(last), Replied(last)])
  }

  lemma NothingYet(s: Session, parse: Text -> Parsed, g: Gate, input: Text, flag: bool)
    ensures TakenSoFar(s, input, input, [], Again, false) && AnsweredSoFar(s, [], [], Again, false)
    ensures FlagSoFar(parse, g, [], flag, flag, Again, [])
  {
    assert [] + Served(s, input) == Served(s, input);
  }

  lemma TakesOn(s: Session, input0: Text, input: Text, rest: Text, served: seq<Frame>, took: Option<Frame>, next: Next,
                broken: bool)
    requires TakenSoFar(s, input0, input, served, Again, false) && TurnTakes(s, input, rest, took, next, broken)
    ensures TakenSoFar(s, input0, rest, served + TookList(took), next, broken)
    ensures next == Again ==> |rest| < |input|
  {
    hide Served;
    if next == Again {
      assert served + (TookList(took) + Served(s, rest)) == served + TookList(took) + Served(s, rest);
    }
  }

  lemma AnswersOn(s: Session, served: seq<Frame>, took: Option<Frame>, before: seq<Reply>, after: seq<Reply>,
                  next: Next, broken: bool)
    requires AnsweredSoFar(s, served, before, Again, false)
    requires if took.None? then after == before else LineReplies(s, took.value, before, after, next, broken)
    requires next == Again ==> !broken
    ensures AnsweredSoFar(s, served + TookList(took), after, next, broken)
    ensures next == Again ==> |after| == |served + TookList(took)|
  {
    hide EffectOf, LineId;
    if took.Some? {
      assert forall i :: 0 <= i < |before| ==> after[i] == before[i];
    }
  }

  lemma FlagIdle(parse: Text -> Parsed, g: Gate, served: seq<Frame>, flag: bool, next: Next, turns: seq<LogEntry>)
    requires FlagSoFar(parse, g, served, flag, flag, Again, turns)
    ensures FlagSoFar(parse, g, served, flag, flag, next, turns)
  {
  }

  lemma FlagOn(parse: Text -> Parsed, g: Gate, served: seq<Frame>, f: Frame, flag0: bool, flag1: bool, next: Next,
               turns: seq<LogEntry>, before: seq<LogEntry>, after: seq<LogEntry>, log0: seq<LogEntry>)
                 returns (turns': seq<LogEntry>)
    requires FlagSoFar(parse, g, served, flag0, flag0, Again, turns) && before == log0 + turns
    requires LineFlag(parse, g, f.line, flag0, flag1, next, before, after)
    ensures FlagSoFar(parse, g, served + [f], flag0, flag1, next, turns') && after == log0 + turns'
    ensures next == Again ==> flag1 == flag0
  {
    hide Asks;
    turns' := after[|log0|..];
    assert after == log0 + turns';
    var all := served + [f];
    assert forall l :: l in all <==> l in served || l == f;
    assert all[|all| - 1] == f;
    if AsksAmong(parse, g, all) {
      assert turns' == turns + [Took(f.line), Replied(f.line)];
    }
  }

  // ---------------------------------------------------------------- the history of a connection

  /** Stages that follow one another from one state of the process to another, each truthful. */
  ghost predicate Chain(c: Setting, stages: seq<Stage>, w0: World, w1: World) {
    && (forall i :: 0 <= i < |stages| ==> Truthful(c, stages[i]))
    && (forall i :: 0 < i < |stages| ==> stages[i].before == stages[i - 1].after)
    && (if stages == [] then w1 == w0 else stages[0].before == w0 && stages[|stages| - 1].after == w1)
  }

  /** The connection's history: one stage per request, with the line and the body the stream gives it, each
      beginning where the one before ended, each answered by its own reply, and each answer true of what its
      stage did. */
  ghost predicate Chronicle(c: Setting, stages: seq<Stage>, served: seq<Frame>, replies: seq<Reply>, w0: World,
                            w1: World, broken: bool) {
    && Chain(c, stages, w0, w1) && |stages| == |served| && |replies| <= |stages|
    && (forall i :: 0 <= i < |stages| ==> stages[i].frame == served[i])
    && (forall i :: 0 <= i < |stages| && !(broken && i == |stages| - 1) ==>
          stages[i].reply == if i < |replies| then Some(replies[i]) else None)
  }

  /** A turn's stage is the record of what it did. */
  ghost predicate StageIs(c: Setting, t: Stage, f: Frame, before: World, after: World, reply: Option<Reply>) {
    Truthful(c, t) && t.frame == f && t.before == before && t.after == after && t.reply == reply
  }

  lemma EmptyChronicle(c: Setting, w: World)
    ensures Chronicle(c, [], [], [], w, w, false)
  {
  }

  lemma ChronicleIdle(c: Setting, stages: seq<Stage>, served: seq<Frame>, replies: seq<Reply>, w0: World, w1: World,
                      broken: bool)
    requires Chronicle(c, stages, served, replies, w0, w1, false)
    ensures Chronicle(c, stages, served, replies, w0, w1, broken)
  {
    hide Truthful;
  }

  lemma ChainGrows(c: Setting, stages: seq<Stage>, t: Stage, w0: World)
    requires Chain(c, stages, w0, t.before) && Truthful(c, t)
    ensures Chain(c, stages + [t], w0, t.after)
  {
    hide Truthful;
    var all := stages + [t];
    forall i | 0 < i < |all| ensures all[i].before == all[i - 1].after {
      if i < |stages| {
        assert stages[i].before == stages[i - 1].after;
      }
    }
    forall i | 0 <= i < |all| ensures Truthful(c, all[i]) {
      if i < |stages| {
        assert Truthful(c, stages[i]);
      }
    }
  }

  lemma ChronicleGrows(s: Session, c: Setting, stages: seq<Stage>, t: Stage, served: seq<Frame>, f: Frame,
                       before: seq<Reply>, after: seq<Reply>, w0: World, mid: World, w1: World, next: Next,
                       broken: bool)
    requires Chronicle(c, stages, served, before, w0, mid, false) && |before| == |served|
    requires StageIs(c, t, f, mid, w1, NewOf(before, after, broken))
    requires LineReplies(s, f, before, after, next, broken)
    ensures Chronicle(c, stages + [t], served + [f], after, w0, w1, broken)
  {
    hide Truthful, Chain, EffectOf, LineId;
    ChainGrows(c, stages, t, w0);
    var all, frames := stages + [t], served + [f];
    forall i | 0 <= i < |all|
      ensures all[i].frame == frames[i]
      ensures !(broken && i == |all| - 1) ==> all[i].reply == if i < |after| then Some(after[i]) else None
    {
      if i < |stages| {
        assert after[i] == before[i] && stages[i].frame == served[i];
        assert stages[i].reply == Some(before[i]);
      }
    }
  }

  /** All but the last stage. */
  lemma ChainInit(c: Setting, stages: seq<Stage>, w0: World, w1: World)
    requires stages != [] && Chain(c, stages, w0, w1)
    ensures var last := stages[|stages| - 1];
            Chain(c, stages[..|stages| - 1], w0, last.before) && Truthful(c, last) && last.after == w1
  {
    hide Truthful;
    var init := stages[..|stages| - 1];
    forall i | 0 < i < |init| ensures init[i].before == init[i - 1].after {
      assert stages[i].before == stages[i - 1].after;
    }
  }

  // ---------------------------------------------------------------- what every history shows

  function LineRequest(c: Setting, t: Stage): Request
    requires AdmittedLine(c.codec.parse, c.gate, t.frame.line)
  {
    c.codec.parse(t.frame.line).req
  }

  /** The stage is an admitted request that tries to run as a user whose gid the kernel accepts and whose uid it
      refuses, and whose gid is not the one in effect already. */
  predicate MovesGid(c: Setting, t: Stage) {
    && AdmittedLine(c.codec.parse, c.gate, t.frame.line) && EntersScope(LineRequest(c, t))
    && var p, own := PrincipalOf(c.passwd, LineRequest(c, t)), t.before.creds;
       own.euid == 0 && p.AsUser? && IsHalf(p.account, c.validIds) && p.account.gid != own.egid
  }

  /** One request: the effective uid is back, and the effective gid too unless it is one of those. */
  lemma StageCreds(c: Setting, t: Stage)
    requires Truthful(c, t)
    ensures t.after.creds.euid == t.before.creds.euid
    ensures t.after.creds.egid != t.before.creds.egid ==> MovesGid(c, t)
    ensures !Faulty(t) ==> (t.after.creds.egid != t.before.creds.egid <==> MovesGid(c, t))
  {
    hide VerbTruth, EntersScope;
    if AdmittedLine(c.codec.parse, c.gate, t.frame.line) {
      var req := LineRequest(c, t);
      assert Confined(c, req, t);
    }
  }

  /** Over a whole connection: every request begins and ends with the effective uid the connection began with,
      and the effective gid is never anything else either exactly unless some request moves it. */
  lemma {:induction false} CredsKept(c: Setting, stages: seq<Stage>, w0: World, w1: World)
    requires Chain(c, stages, w0, w1)
    ensures w1.creds.euid == w0.creds.euid
    ensures forall i :: 0 <= i < |stages| ==> stages[i].before.creds.euid == stages[i].after.creds.euid == w0.creds.euid
    ensures (forall i :: 0 <= i < |stages| ==> !MovesGid(c, stages[i])) ==>
              w1.creds.egid == w0.creds.egid
              && forall i :: 0 <= i < |stages| ==>
                   stages[i].before.creds.egid == stages[i].after.creds.egid == w0.creds.egid
    ensures w1.faults == w0.faults && (exists i :: 0 <= i < |stages| && MovesGid(c, stages[i])) ==>
              exists i :: 0 <= i < |stages| && stages[i].after.creds.egid != stages[i].before.creds.egid
    decreases |stages|
  {
    hide Truthful, MovesGid;
    if stages != [] {
      var init, last := stages[..|stages| - 1], stages[|stages| - 1];
      ChainInit(c, stages, w0, w1);
      CredsKept(c, init, w0, last.before);
      StageCreds(c, last);
      FaultsAddUp(c, stages, w0, w1);
      if w1.faults == w0.faults && exists i :: 0 <= i < |stages| && MovesGid(c, stages[i]) {
        var i :| 0 <= i < |stages| && MovesGid(c, stages[i]);
        StageCreds(c, stages[i]);
      }
    }
  }

  /** The user a request tries to run as, if it is admitted and comes that far. */
  function UserOf(c: Setting, t: Stage): Option<Account> {
    if AdmittedLine(c.codec.parse, c.gate, t.frame.line) && EntersScope(LineRequest(c, t))
       && PrincipalOf(c.passwd, LineRequest(c, t)).AsUser?
    then Some(PrincipalOf(c.passwd, LineRequest(c, t)).account) else None
  }

  function LastUser(c: Setting, stages: seq<Stage>): Option<Account> {
    if stages == [] then None
    else if UserOf(c, stages[|stages| - 1]).Some? then UserOf(c, stages[|stages| - 1])
    else LastUser(c, stages[..|stages| - 1])
  }

  /** The supplementary groups are never put back: after a connection of a root process in which no call failed,
      they are those of the last user it tried, whether or not it could run as that user. */
  lemma {:induction false} GroupsLeak(c: Setting, stages: seq<Stage>, w0: World, w1: World)
    requires Chain(c, stages, w0, w1) && w1.faults == w0.faults && w0.creds.euid == 0
    ensures w1.creds.groups == match LastUser(c, stages) case Some(a) => GroupsOf(a) case None => w0.creds.groups
    decreases |stages|
  {
    hide VerbTruth, EntersScope, InStepWith;
    if stages != [] {
      var init, last := stages[..|stages| - 1], stages[|stages| - 1];
      ChainInit(c, stages, w0, w1);
      FaultsAddUp(c, init, w0, last.before);
      CredsKept(c, init, w0, last.before);
      GroupsLeak(c, init, w0, last.before);
      if AdmittedLine(c.codec.parse, c.gate, last.frame.line) {
        assert Confined(c, LineRequest(c, last), last);
      }
    }
  }

  /** The process counted a failed call exactly if some stage had one. */
  lemma {:induction false} FaultsAddUp(c: Setting, stages: seq<Stage>, w0: World, w1: World)
    requires Chain(c, stages, w0, w1)
    ensures w0.faults <= w1.faults
    ensures w1.faults == w0.faults <==> forall i :: 0 <= i < |stages| ==> !Faulty(stages[i])
    decreases |stages|
  {
    hide VerbTruth, Confined;
    if stages != [] {
      ChainInit(c, stages, w0, w1);
      FaultsAddUp(c, stages[..|stages| - 1], w0, stages[|stages| - 1].before);
      assert forall i :: 0 <= i < |stages| - 1 ==> stages[..|stages| - 1][i] == stages[i];
    }
  }

  /** No account has a gid the kernel accepts and a uid it refuses. */
  predicate NoHalfAccounts(passwd: map<Text, Account>, validIds: set<int>) {
    forall name :: name in passwd ==> !IsHalf(passwd[name], validIds)
  }

  lemma NoHalfNoMove(c: Setting, t: Stage)
    requires NoHalfAccounts(c.passwd, c.validIds)
    ensures !MovesGid(c, t)
  {
    hide EntersScope;
  }

  /** A request that moves the gid, for any such account. */
  lemma GidCanMove(passwd: map<Text, Account>, validIds: set<int>, own: Creds, name: Text)
    returns (c: Setting, t: Stage)
    requires own.euid == 0 && name in passwd && '\0' !in name
    requires IsHalf(passwd[name], validIds) && passwd[name].gid != own.egid
    ensures c.passwd == passwd && c.validIds == validIds && t.before.creds == own
    ensures Truthful(c, t) && t.after.creds.egid != own.egid
  {
    var user: Text := if name == [] then "\0" else name;
    var req: Request := map["verb" := JText("stat"), "path" := JText("/"), "user" := JText(user)];
    var codec := Codec(line => Object(req), r => [], text => None, x => x, data => data, text => text);
    c := Setting(codec, Gate(true, None), [], 1, passwd, validIds, true);
    var p := AsUser(user, passwd[name]);
    assert Name(user) == name;
    assert PrincipalOf(passwd, req) == p;
    var fs := Fs(map[], map[], 0);
    var before := World(fs, own, [], [], 0, Concurrency.Run([Concurrency.Sys(fs, map[])], []));
    var after := before.(creds := LeftBy(own, p, validIds));
    t := Stage(Frame([], []), before, after, None, WriterLog(None, false), false);
    StatIsStat(req);
    assert Confined(c, req, t);
    assert VerbTruth(c, req, t);
  }

  lemma StatIsStat(req: Request)
    requires FindText(req, "verb") == Some("stat") && FindText(req, "path").Some?
    ensures VerbOf(req) == StatVerb && EntersScope(req)
  {
  }

  /** Exactly when the comment's promise that a failed drop leaves the process at root can fail for the gid: the
      process is root and some account has a gid the kernel accepts, not in effect already, and a uid it refuses. */
  lemma GidStays(passwd: map<Text, Account>, validIds: set<int>, own: Creds)
    ensures (exists c: Setting, t: Stage :: c.passwd == passwd && c.validIds == validIds && t.before.creds == own
                                            && Truthful(c, t) && t.after.creds.egid != own.egid)
            <==> own.euid == 0 && exists name :: name in passwd && '\0' !in name && IsHalf(passwd[name], validIds)
                                                 && passwd[name].gid != own.egid
  {
    hide Truthful, MovesGid, IsHalf;
    if c: Setting, t: Stage :| c.passwd == passwd && c.validIds == validIds && t.before.creds == own
                               && Truthful(c, t) && t.after.creds.egid != own.egid {
      StageCreds(c, t);
      assert MovesGid(c, t);
      HalfAccountOf(c, t);
    }
    if own.euid == 0 {
      if name :| name in passwd && '\0' !in name && IsHalf(passwd[name], validIds) && passwd[name].gid != own.egid {
        var c, t := GidCanMove(passwd, validIds, own, name);
      }
    }
  }

  lemma HalfAccountOf(c: Setting, t: Stage)
    requires MovesGid(c, t)
    ensures t.before.creds.euid == 0
    ensures exists name :: name in c.passwd && '\0' !in name && IsHalf(c.passwd[name], c.validIds)
                           && c.passwd[name].gid != t.before.creds.egid
  {
    hide EntersScope;
    var p := PrincipalOf(c.passwd, LineRequest(c, t));
    assert Name(p.name) in c.passwd;
  }

  predicate NoneAdmitted(parse: Text -> Parsed, g: Gate, served: seq<Frame>) {
    forall f :: f in served ==> !AdmittedLine(parse, g, f.line)
  }

  /** If no request is admitted, the process is as it was: files, credentials, calls and commands. */
  lemma {:induction false} NothingAdmitted(c: Setting, stages: seq<Stage>, w0: World, w1: World)
    requires Chain(c, stages, w0, w1)
    requires forall i :: 0 <= i < |stages| ==> !AdmittedLine(c.codec.parse, c.gate, stages[i].frame.line)
    ensures w1 == w0
    decreases |stages|
  {
    hide VerbTruth, Confined;
    if stages != [] {
      ChainInit(c, stages, w0, w1);
      NothingAdmitted(c, stages[..|stages| - 1], w0, stages[|stages| - 1].before);
    }
  }

  /** Call number `n` was made while serving this stage, an admitted request, with the rights of its user, who
      could be taken on. */
  ghost predicate CallOf(c: Setting, t: Stage, n: nat, creds: Creds) {
    && |t.before.calls| <= n < |t.after.calls| && creds == t.after.calls[n]
    && AdmittedLine(c.codec.parse, c.gate, t.frame.line)
    && var p := PrincipalOf(c.passwd, LineRequest(c, t));
       ActsFor(creds, p, t.before.creds) && MayRunAs(p, t.before.creds, c.validIds)
  }

  lemma StageCalls(c: Setting, t: Stage, n: nat)
    requires Truthful(c, t) && |t.before.calls| <= n < |t.after.calls|
    ensures CallOf(c, t, n, t.after.calls[n])
  {
    hide VerbTruth;
    var req := LineRequest(c, t);
    assert Confined(c, req, t);
  }

  lemma StageKeepsCalls(c: Setting, t: Stage)
    requires Truthful(c, t)
    ensures t.before.calls <= t.after.calls
  {
    hide VerbTruth;
  }

  /** Every file-system call of a connection was made for one admitted request, in the rights of its user. */
  lemma {:induction false} CallsBelong(c: Setting, stages: seq<Stage>, w0: World, w1: World, n: nat)
    requires Chain(c, stages, w0, w1)
    ensures w0.calls <= w1.calls
    ensures |w0.calls| <= n < |w1.calls| ==> exists i :: 0 <= i < |stages| && CallOf(c, stages[i], n, w1.calls[n])
    decreases |stages|
  {
    hide Truthful, CallOf;
    if stages != [] {
      var init, last := stages[..|stages| - 1], stages[|stages| - 1];
      ChainInit(c, stages, w0, w1);
      StageKeepsCalls(c, last);
      CallsBelong(c, init, w0, last.before, n);
      if |last.before.calls| <= n < |w1.calls| {
        StageCalls(c, last, n);
      } else if |w0.calls| <= n < |w1.calls| {
        var i :| 0 <= i < |init| && CallOf(c, init[i], n, last.before.calls[n]);
        assert stages[i] == init[i];
      }
    }
  }

  /** Every file that was sent was read to its end. */
  predicate NoneReadFailed(stages: seq<Stage>) {
    forall i :: 0 <= i < |stages| ==> !stages[i].readFailed
  }

  predicate IsGet(c: Setting, t: Stage) {
    AdmittedLine(c.codec.parse, c.gate, t.frame.line) && VerbOf(LineRequest(c, t)) == GetFileVerb
  }

  /** No file can shrink while it is sent: nothing else is at the files, or only requests to ordinary targets are, and
      none of those sent is a temp. */
  ghost predicate ReadsInPeace(c: Setting, stages: seq<Stage>, h: Concurrency.Run) {
    c.alone || (Concurrency.IsTame(h) && forall i :: 0 <= i < |stages| && IsGet(c, stages[i]) ==>
                  !Concurrency.IsWorkName(Name(PathOf(LineRequest(c, stages[i])))))
  }

  /** A read that comes up short without a failed call takes a file that shrank. */
  lemma ShortReads(c: Setting, t: Stage)
    requires Truthful(c, t) && t.readFailed && !Faulty(t)
    ensures !c.alone && IsGet(c, t)
    ensures Concurrency.IsTame(t.after.history) ==> Concurrency.IsWorkName(Name(PathOf(LineRequest(c, t))))
  {
    hide Concurrency.IsRun, Concurrency.IsTame, Concurrency.IsWorkName, Concurrency.Began, Confined;
    var h := t.after.history;
    assert GetTruth(c, LineRequest(c, t), t);
    assert Concurrency.Doing(h, c.pid).value.get.GShort?;
    if Concurrency.IsTame(h) && !Concurrency.IsWorkName(Name(PathOf(LineRequest(c, t)))) {
      Concurrency.GetIsSnapshot(h, c.pid);
    }
  }

  /** Each stage's history is part of the last one. */
  lemma {:induction false} HistoriesGrow(c: Setting, stages: seq<Stage>, w0: World, w1: World)
    requires Chain(c, stages, w0, w1)
    ensures forall i :: 0 <= i < |stages| ==> Concurrency.Extends(stages[i].after.history, w1.history)
    decreases |stages|
  {
    hide VerbTruth, Confined;
    if stages != [] {
      var init := stages[..|stages| - 1];
      ChainInit(c, stages, w0, w1);
      HistoriesGrow(c, init, w0, stages[|stages| - 1].before);
      assert forall i :: 0 <= i < |init| ==> init[i] == stages[i];
    }
  }

  lemma TameBefore(h: Concurrency.Run, h': Concurrency.Run)
    requires Concurrency.Extends(h, h') && Concurrency.IsTame(h')
    ensures Concurrency.IsTame(h)
  {
    assert forall i :: 0 <= i < |h.events| ==> h.events[i] == h'.events[i];
  }

  /** The replies of the history are whole exactly if no read failed, so certainly if no call did and no file could
      shrink. */
  lemma RepliesWhole(c: Setting, stages: seq<Stage>, served: seq<Frame>, replies: seq<Reply>, w0: World, w1: World)
    requires Chronicle(c, stages, served, replies, w0, w1, false)
    ensures (forall i :: 0 <= i < |replies| ==> Complete(replies[i])) <==> NoneReadFailed(stages)
    ensures w1.faults == w0.faults && ReadsInPeace(c, stages, w1.history) ==> NoneReadFailed(stages)
  {
    hide VerbTruth, Confined, Concurrency.IsTame, Concurrency.IsWorkName, InStepWith, Concurrency.Extends;
    FaultsAddUp(c, stages, w0, w1);
    HistoriesGrow(c, stages, w0, w1);
    forall i | 0 <= i < |stages|
      ensures stages[i].readFailed <==> i < |replies| && !Complete(replies[i])
      ensures w1.faults == w0.faults && ReadsInPeace(c, stages, w1.history) ==> !stages[i].readFailed
    {
      assert Truthful(c, stages[i]);
      if stages[i].readFailed && w1.faults == w0.faults && ReadsInPeace(c, stages, w1.history) {
        ShortReads(c, stages[i]);
        TameBefore(stages[i].after.history, w1.history);
      }
    }
  }

  /** A client reads back every reply exactly if no read of a served file failed. */
  lemma ReadBack(c: Setting, output: Text, stages: seq<Stage>, served: seq<Frame>, replies: seq<Reply>, w0: World,
                 w1: World)
    requires Faithful(c.codec) && output == Encode(c.codec, replies)
    requires Chronicle(c, stages, served, replies, w0, w1, false)
    ensures ClientRead(c.codec, output) == ReadAs(c.codec, replies) <==> NoneReadFailed(stages)
    ensures w1.faults == w0.faults && ReadsInPeace(c, stages, w1.history) ==> NoneReadFailed(stages)
  {
    hide Chronicle, ReadsInPeace;
    ClientReadsBack(c.codec, replies);
    RepliesWhole(c, stages, served, replies, w0, w1);
  }

  /** No call failed in any stage. */
  predicate NoneFaulty(stages: seq<Stage>) {
    forall i :: 0 <= i < |stages| ==> !Faulty(stages[i])
  }

  /** Every request was begun with these effective ids. */
  predicate AllBegunAs(stages: seq<Stage>, creds: Creds, gidToo: bool) {
    forall i :: 0 <= i < |stages| ==>
      stages[i].before.creds.euid == creds.euid && (gidToo ==> stages[i].before.creds.egid == creds.egid)
  }

  /** Each call since `w0` was made for some stage. */
  ghost predicate CallsAccounted(c: Setting, stages: seq<Stage>, w0: World, w1: World) {
    && w0.calls <= w1.calls
    && forall n :: |w0.calls| <= n < |w1.calls| ==>
         exists i :: 0 <= i < |stages| && CallOf(c, stages[i], n, w1.calls[n])
  }

  /** The above in short: failed calls, calls made, effective ids, and what happens if no request is admitted. */
  lemma WhatItShows(c: Setting, stages: seq<Stage>, served: seq<Frame>, replies: seq<Reply>, w0: World, w1: World,
                    broken: bool)
    requires Chronicle(c, stages, served, replies, w0, w1, broken)
    ensures w1.faults == w0.faults <==> NoneFaulty(stages)
    ensures CallsAccounted(c, stages, w0, w1)
    ensures w1.creds.euid == w0.creds.euid
    ensures NoHalfAccounts(c.passwd, c.validIds) ==> w1.creds.egid == w0.creds.egid
    ensures AllBegunAs(stages, w0.creds, NoHalfAccounts(c.passwd, c.validIds))
    ensures NoneAdmitted(c.codec.parse, c.gate, served) ==> w1 == w0
  {
    hide Truthful, NoHalfAccounts, MovesGid, CallOf;
    FaultsAddUp(c, stages, w0, w1);
    CredsKept(c, stages, w0, w1);
    forall n
      ensures |w0.calls| <= n < |w1.calls| ==> exists i :: 0 <= i < |stages| && CallOf(c, stages[i], n, w1.calls[n])
    {
      if |w0.calls| <= n < |w1.calls| {
        CallsBelong(c, stages, w0, w1, n);
      }
    }
    CallsBelong(c, stages, w0, w1, 0);
    if NoHalfAccounts(c.passwd, c.validIds) {
      forall i | 0 <= i < |stages| ensures !MovesGid(c, stages[i]) {
        NoHalfNoMove(c, stages[i]);
      }
    }
    if NoneAdmitted(c.codec.parse, c.gate, served) {
      forall i | 0 <= i < |stages| ensures !AdmittedLine(c.codec.parse, c.gate, stages[i].frame.line) {
        assert served[i] in served;
      }
      NothingAdmitted(c, stages, w0, w1);
    }
  }

  // ---------------------------------------------------------------- one turn

  function TookList(took: Option<Frame>): seq<Frame> {
    if took.Some? then [took.value] else []
  }

  /** Serving a line consumes its body and no more, and stops where the stream's meaning says. */
  predicate LineTakes(s: Session, line: Text, input: Text, rest: Text, next: Next, broken: bool) {
    if next == Again then !broken && !Ends(s, line) && BodyConsumed(input, rest, BodyLength(s, line))
    else !broken ==> Ends(s, line) || BodyLength(s, line) > |input|
  }

  /** A turn consumes its request's share of the stream and no more. */
  predicate TurnTakes(s: Session, input: Text, rest: Text, took: Option<Frame>, next: Next, broken: bool) {
    if next == Again then |rest| < |input| && Served(s, input) == TookList(took) + Served(s, rest)
    else TookList(took) <= Served(s, input) && (!broken ==> TookList(took) == Served(s, input))
  }

  lemma NothingTaken(s: Session, input: Text, rest: Text, broken: bool)
    requires !broken ==> IndexOf(input, '\n') == |input|
    ensures TurnTakes(s, input, rest, None, Stop, broken)
  {
  }

  lemma BlankTaken(s: Session, input: Text)
    requires IndexOf(input, '\n') < |input| && Strip(input[..IndexOf(input, '\n')]) == []
    ensures TurnTakes(s, input, input[IndexOf(input, '\n') + 1..], None, Again, false)
  {
    var rest := input[IndexOf(input, '\n') + 1..];
    assert [] + Served(s, rest) == Served(s, rest);
  }

  lemma LineTaken(s: Session, input: Text, line: Text, rest: Text, after: Text, next: Next, broken: bool)
    requires var i := IndexOf(input, '\n'); i < |input| && line == Strip(input[..i]) && rest == input[i + 1..]
    requires line != [] && LineTakes(s, line, rest, after, next, broken)
    ensures TurnTakes(s, input, after, Some(Frame(line, BodyOf(rest, BodyLength(s, line)))), next, broken)
  {
    hide Ends, BodyLength, Strip, BodyOf;
    var n := BodyLength(s, line);
    assert Served(s, input) ==
      if Ends(s, line) || n > |rest| then [Frame(line, BodyOf(rest, n))]
      else [Frame(line, BodyOf(rest, n))] + Served(s, rest[n..]);
  }

  /** The streaming verbs are the lines that are not answered in one line. */
  lemma EffectStreams(codec: Codec, g: Gate, stopping: bool, line: Text)
    ensures EffectOf(SessionOf(codec, g, stopping), line).Answers? <==> !IsStreaming(codec.parse, line)
    ensures !IsStreaming(codec.parse, line) ==> BodyLength(SessionOf(codec, g, stopping), line) == 0
    ensures forall input: Text :: BodyOf(input, 0) == []
  {
    hide VerbOf;
  }

  /** A line asks for a shutdown exactly when that is its effect on the stream. */
  lemma EffectAsks(codec: Codec, g: Gate, stopping: bool, line: Text)
    ensures Asks(codec.parse, g, line) <==> EffectOf(SessionOf(codec, g, stopping), line) == Answers(true)
  {
    hide VerbOf;
  }

  /** A request is answered once, with its id; only a body the client cut off, or a broken network, leaves
      it unanswered. */
  predicate LineReplies(s: Session, f: Frame, before: seq<Reply>, after: seq<Reply>, next: Next, broken: bool) {
    var id := LineId(s.parse, f.line);
    && LateReply(before, after, id)
    && (!broken ==>
          || NewReply(before, after, id)
          || (next == Stop && after == before && |f.body| < BodyLength(s, f.line)))
  }

  /** Only an admitted shutdown sets the flag; it is answered, or the answer was tried, and nothing more is served. */
  predicate LineFlag(parse: Text -> Parsed, g: Gate, line: Text, flag0: bool, flag1: bool, next: Next,
                     log0: seq<LogEntry>, log1: seq<LogEntry>) {
    && flag1 == (flag0 || Asks(parse, g, line))
    && (log1 == log0 + [Took(line)] || log1 == log0 + [Took(line), Replied(line)])
    && (Asks(parse, g, line) ==> next == Stop && log1 == log0 + [Took(line), Replied(line)])
  }

  /** How a streaming request may end the connection: the network broke, the body was cut off by the client
      (then nothing was answered), or the line allowed no other way (then it was answered). */
  predicate CloseReply(before: seq<Reply>, after: seq<Reply>, id: real, effect: Effect, input: Text, broken: bool) {
    && LateReply(before, after, id)
    && (!broken ==> if effect.Streams? then effect.body > |input| && after == before else NewReply(before, after, id))
  }

  /** How a streaming verb leaves the connection: on the first byte after the body and answered once, or closing. */
  predicate StreamDone(s: Session, line: Text, rc: Rc, input: Text, rest: Text, before: seq<Reply>, after: seq<Reply>,
                       broken: bool) {
    var effect, id := EffectOf(s, line), LineId(s.parse, line);
    && rc != NotStreaming
    && (rc == Continue ==>
          effect.Streams? && !broken && BodyConsumed(input, rest, effect.body) && NewReply(before, after, id))
    && (rc == MustClose || rc == Threw ==> CloseReply(before, after, id, effect, input, broken))
  }

  /** An unadmitted streaming request: one error line, if it could be sent, and the connection closes. */
  lemma TurnedAway(codec: Codec, g: Gate, stopping: bool, line: Text, rc: Rc, input: Text, before: seq<Reply>,
                   after: seq<Reply>, r: Response, broken: bool)
    requires IsStreaming(codec.parse, line) && !AdmittedLine(codec.parse, g, line)
    requires r.Failed? && r.id == LineId(codec.parse, line)
    requires rc == (if broken then Threw else MustClose)
    requires if broken then after == before else after == before + [Reply(r, [])]
    ensures StreamDone(SessionOf(codec, g, stopping), line, rc, input, input, before, after, broken)
    ensures NewOf(before, after, broken) == if broken then None else Some(Reply(r, []))
  {
    hide LineId, VerbOf;
  }

  /** put_file's outcome, as the connection sees it. */
  lemma Uploaded(codec: Codec, g: Gate, stopping: bool, line: Text, req: Request, rc: Rc, input: Text, rest: Text,
                 before: seq<Reply>, after: seq<Reply>, broken: bool)
    requires AdmittedLine(codec.parse, g, line) && codec.parse(line).req == req
    requires VerbOf(req) == PutFileVerb && rc != NotStreaming
    requires rc == Continue ==> PutBytes(req).Some? && !broken && BodyConsumed(input, rest, PutBytes(req).value)
                                && NewReply(before, after, IdOf(req))
    requires rc != Continue ==>
               CloseReply(before, after, IdOf(req),
                          if PutBytes(req).Some? then Streams(PutBytes(req).value) else Closes, input, broken)
    ensures StreamDone(SessionOf(codec, g, stopping), line, rc, input, rest, before, after, broken)
    ensures BodyLength(SessionOf(codec, g, stopping), line) == if PutBytes(req).Some? then PutBytes(req).value else 0
  {
    hide VerbOf, CloseReply, NewReply, BodyConsumed;
  }

  /** get_file's outcome, as the connection sees it. */
  lemma Downloaded(codec: Codec, g: Gate, stopping: bool, line: Text, req: Request, rc: Rc, input: Text,
                   before: seq<Reply>, after: seq<Reply>, broken: bool)
    requires AdmittedLine(codec.parse, g, line) && codec.parse(line).req == req
    requires VerbOf(req) == GetFileVerb && rc != NotStreaming
    requires rc == Continue ==> !broken && NewReply(before, after, IdOf(req))
    requires rc != Continue ==> broken && LateReply(before, after, IdOf(req))
    ensures StreamDone(SessionOf(codec, g, stopping), line, rc, input, input, before, after, broken)
  {
    hide VerbOf, NewReply;
    assert input[0..] == input;
  }

  /** What a streaming verb's return means for the turn. */
  lemma StreamedLine(s: Session, codec: Codec, g: Gate, line: Text, input: Text, rest: Text, before: seq<Reply>,
                     after: seq<Reply>, rc: Rc, broken: bool, flag: bool, log: seq<LogEntry>)
    requires s == SessionOf(codec, g, flag) && IsStreaming(codec.parse, line)
    requires StreamDone(s, line, rc, input, rest, before, after, broken)
    ensures var next := if rc == Continue then Again else Stop;
            && LineTakes(s, line, input, rest, next, broken)
            && LineReplies(s, Frame(line, BodyOf(input, BodyLength(s, line))), before, after, next, broken)
            && LineFlag(codec.parse, g, line, flag, flag, next, log, log + [Took(line)])
            && (next == Again ==> !broken)
  {
    hide LineId, VerbOf;
    EffectAsks(codec, g, flag, line);
  }

  /** What a dispatched line means for the turn. */
  lemma AnsweredLine(s: Session, codec: Codec, g: Gate, line: Text, input: Text, before: seq<Reply>, after: seq<Reply>,
                     response: Response, next: Next, broken: bool, flag0: bool, flag1: bool,
                     log0: seq<LogEntry>, log1: seq<LogEntry>)
    requires s == SessionOf(codec, g, flag0) && !IsStreaming(codec.parse, line)
    requires response.id == LineId(codec.parse, line) && Promised(response) == 0
    requires if broken then after == before else after == before + [Reply(response, [])]
    requires flag1 == (flag0 || Asks(codec.parse, g, line)) && next == (if broken || flag1 then Stop else Again)
    requires log1 == log0 + [Took(line)] + [Replied(line)]
    ensures LineTakes(s, line, input, input, next, broken)
    ensures LineReplies(s, Frame(line, BodyOf(input, BodyLength(s, line))), before, after, next, broken)
    ensures LineFlag(codec.parse, g, line, flag0, flag1, next, log0, log1)
  {
    hide LineId;
    EffectAsks(codec, g, flag0, line);
    EffectStreams(codec, g, flag0, line);
    assert input[0..] == input;
    assert log1 == log0 + [Took(line), Replied(line)];
  }
}
