/** The daemon's life: it accepts connections one after another, and serves each in a forked child, or itself when
    fork fails. A child starts with a copy of the daemon's state; what it sets, the daemon never sees. */
module Daemon {
  import opened Base
  import opened Fields
  import opened Framing
  import opened Connection
  import opened Kernel
  import opened Answers
  import opened Stream
  import opened Sessions
  import opened Agent
  import opened Startup
  import Concurrency

  /** All that happened at one connection. */
  datatype Visit = Visit(
    input: Text,                       // what the client sends
    forked: bool,                      // served by a child, or by the daemon itself
    before: bool,                      // the daemon's own shutdown flag, when the connection is accepted
    after: bool,                       // and when the next one can be
    setting: Setting,                  // of the process that served it
    served: seq<Frame>,
    stages: seq<Stage>,
    replies: seq<Reply>,
    broken: bool,
    start: World,
    end: World,
    log: seq<LogEntry>)                   // what the process that served it did, from first to last

  /** An admitted request on the connection asked for a shutdown. */
  predicate Asked(v: Visit) {
    AsksAmong(v.setting.codec.parse, v.setting.gate, v.served)
  }

  /** The log of a connection: its turns, the close, and then the shutdown command exactly if the flag is up. */
  ghost predicate LogOf(v: Visit) {
    exists turns: seq<LogEntry> ::
      && FlagSoFar(v.setting.codec.parse, v.setting.gate, v.served, v.before, v.before || Asked(v), Stop, turns)
      && v.log == turns + [Closed] + (if v.before || Asked(v) then [RanCommand] else [])
  }

  ghost predicate IsVisit(v: Visit) {
    var requests := Served(SessionOf(v.setting.codec, v.setting.gate, v.before), v.input);
    && v.served <= requests && (!v.broken ==> v.served == requests)
    && Chronicle(v.setting, v.stages, v.served, v.replies, v.start, v.end, v.broken)
    && LogOf(v)
    && v.after == if v.forked then v.before else v.before || Asked(v)
  }

  /** The child's copy of the server, with its own log. */
  method Fork(parent: Server) returns (child: Server)
    ensures fresh(child) && child.codec == parent.codec && child.log == []
    ensures child.GateValue() == parent.GateValue() && child.shutdownRequested == parent.shutdownRequested
  {
    child := new Server(parent.codec);
    child.open, child.haveSecret, child.secret := parent.open, parent.haveSecret, parent.secret;
    child.shutdownRequested := parent.shutdownRequested;
  }

  /** handleConnection on a fresh socket, in the process that serves it. */
  method ServeClient(server: Server, k: Process, input: Text, grepBin: Text, forked: bool) returns (ghost v: Visit)
    requires k.Ready()
    modifies server`shutdownRequested, server`log, k
    ensures k.Ready() && IsVisit(v) && v.input == input && v.forked == forked
    ensures v.setting == server.SettingOf(k, grepBin)
    ensures v.before == old(server.shutdownRequested) && (!forked ==> v.after == server.shutdownRequested)
    ensures server.log == old(server.log) + v.log && v.start == old(k.Now()) && v.end == k.Now()
  {
    hide IsVisit, TakenSoFar, AnsweredSoFar, FlagSoFar, Chronicle, NoneReadFailed, NoneFaulty, CallsAccounted,
         AllBegunAs, NoHalfAccounts, NoneAdmitted, ClientRead, Faithful, Encode, SessionOf, Concurrency.IsRun;
    var conn := new Socket(server.codec, input);
    ghost var served, turns, stages;
    served, turns, stages := server.HandleConnection(conn, k, grepBin);
    ghost var flag := server.shutdownRequested;
    ghost var log := turns + [Closed] + (if flag then [RanCommand] else []);
    v := Visit(input, forked, old(server.shutdownRequested), if forked then old(server.shutdownRequested) else flag,
               server.SettingOf(k, grepBin), served, stages, conn.replies, conn.broken, old(k.Now()), k.Now(), log);
    MakesVisit(v, conn.input, flag, turns);
  }

  lemma MakesVisit(v: Visit, rest: Text, flag: bool, turns: seq<LogEntry>)
    requires TakenSoFar(SessionOf(v.setting.codec, v.setting.gate, v.before), v.input, rest, v.served, Stop, v.broken)
    requires FlagSoFar(v.setting.codec.parse, v.setting.gate, v.served, v.before, flag, Stop, turns)
    requires v.log == turns + [Closed] + (if flag then [RanCommand] else [])
    requires Chronicle(v.setting, v.stages, v.served, v.replies, v.start, v.end, v.broken)
    requires v.after == if v.forked then v.before else flag
    ensures IsVisit(v)
  {
    hide Chronicle, Served;
  }

  /** Where a new process joins: in the history so far, since the kernel gives it a pid that is free. */
  ghost function Joined(h: Concurrency.Run, pid: nat): Concurrency.Run {
    if Concurrency.IsIdle(h, pid) then h else Concurrency.Run([Concurrency.Sys(h.Last().fs, map[])], [])
  }

  lemma JoinedIsRun(h: Concurrency.Run, pid: nat)
    requires Concurrency.IsRun(h)
    ensures var j := Joined(h, pid);
            Concurrency.IsRun(j) && j.Last().fs == h.Last().fs && Concurrency.IsIdle(j, pid)
  {
    Concurrency.RunIsValid(h);
  }

  /** Accept one connection and see it served. Meanwhile, and until the next one, other processes run. */
  method AcceptOne(daemon: Server, k: Process, input: Text, grepBin: Text) returns (ghost v: Visit)
    requires k.Ready() && !k.alone
    modifies daemon`shutdownRequested, daemon`log, k
    ensures k.Ready() && IsVisit(v) && v.input == input
    ensures SameHouse(v.setting, daemon.SettingOf(k, grepBin))
    ensures v.before == old(daemon.shutdownRequested) && v.after == daemon.shutdownRequested
    ensures daemon.log == old(daemon.log) + if v.forked then [] else v.log
    ensures v.start.creds == old(k.creds) && k.creds == if v.forked then old(k.creds) else v.end.creds
    ensures v.start.history == if v.forked then Joined(old(k.history), v.setting.pid) else old(k.history)
  {
    hide LogOf, Chronicle, Served, Concurrency.IsRun, Concurrency.Interlude;
    var pid: nat, forks: bool := *, *;
    if forks {
      var child := Fork(daemon);
      JoinedIsRun(k.history, pid);
      var process := new Process(pid, k.passwd, k.validIds, false, k.fs, k.creds, Joined(k.history, pid));
      v := ServeClient(child, process, input, grepBin, true);
    } else {
      v := ServeClient(daemon, k, input, grepBin, false);
    }
    Idles(k);
  }

  /** Between connections other processes run. */
  method Idles(k: Process)
    requires k.Ready()
    modifies k`fs, k`history
    ensures k.Ready()
  {
    k.Preempted();
  }

  // ---------------------------------------------------------------- the daemon's life

  /** Settings of two processes of the same daemon. */
  ghost predicate SameHouse(c: Setting, d: Setting) {
    c == d.(pid := c.pid, alone := c.alone)
  }

  /** One visit after another: the setting stays, the flag and the credentials are the daemon's own in between. */
  ghost predicate IsHistory(vs: seq<Visit>, d: Setting) {
    && (forall i :: 0 <= i < |vs| ==> IsVisit(vs[i]) && SameHouse(vs[i].setting, d))
    && (|vs| > 0 ==> !vs[0].before)
    && (forall i :: 0 < i < |vs| ==> Follows(vs[i - 1], vs[i]))
  }

  predicate Follows(v: Visit, v': Visit) {
    v'.before == v.after && v'.start.creds == if v.forked then v.start.creds else v.end.creds
  }

  /** What the daemon itself has logged: the connections it served inline. */
  function InlineLog(vs: seq<Visit>): seq<LogEntry> {
    if vs == [] then []
    else InlineLog(vs[..|vs| - 1]) + if vs[|vs| - 1].forked then [] else vs[|vs| - 1].log
  }

  /** The accept loop, over any sequence of clients. Its record is a history, and at the end of each connection the
      shutdown command ran exactly if an admitted request on it asked, or one on an earlier connection that the
      daemon had to serve itself. */
  method AcceptLoop(daemon: Server, k: Process, inputs: seq<Text>, grepBin: Text) returns (ghost vs: seq<Visit>)
    requires k.Ready() && !k.alone && !daemon.shutdownRequested && daemon.log == []
    modifies daemon`shutdownRequested, daemon`log, k
    ensures |vs| == |inputs| && forall i :: 0 <= i < |vs| ==> vs[i].input == inputs[i]
    ensures IsHistory(vs, daemon.SettingOf(k, grepBin))
    ensures daemon.log == InlineLog(vs)
    ensures forall i :: 0 <= i < |vs| ==> (RanCommand in vs[i].log <==> Asked(vs[i]) || AskedInline(vs, i))
    ensures forall i :: 0 <= i < |vs| ==>
              && vs[i].start.creds.euid == old(k.creds).euid
              && (NoHalfAccounts(k.passwd, k.validIds) ==> vs[i].start.creds.egid == old(k.creds).egid)
  {
    hide IsVisit, Asked, AskedInline, NoHalfAccounts, Concurrency.IsRun;
    vs := [];
    ghost var gate, d := daemon.GateValue(), daemon.SettingOf(k, grepBin);
    for n := 0 to |inputs|
      invariant k.Ready() && daemon.GateValue() == gate && daemon.SettingOf(k, grepBin) == d && |vs| == n
      invariant forall i :: 0 <= i < n ==> vs[i].input == inputs[i]
      invariant IsHistory(vs, d) && daemon.log == InlineLog(vs)
      invariant if n == 0 then !daemon.shutdownRequested && k.creds == old(k.creds)
                else daemon.shutdownRequested == vs[n - 1].after && vs[0].start.creds == old(k.creds)
                     && k.creds == if vs[n - 1].forked then vs[n - 1].start.creds else vs[n - 1].end.creds
    {
      ghost var v := AcceptOne(daemon, k, inputs[n], grepBin);
      HistoryGrows(vs, v, d);
      assert (vs + [v])[..n] == vs;
      vs := vs + [v];
    }
    forall i | 0 <= i < |vs|
      ensures RanCommand in vs[i].log <==> Asked(vs[i]) || AskedInline(vs, i)
      ensures vs[i].start.creds.euid == old(k.creds).euid
      ensures NoHalfAccounts(k.passwd, k.validIds) ==> vs[i].start.creds.egid == old(k.creds).egid
    {
      RunsExactlyIfAsked(vs, d, i);
      IdsAreKept(vs, d, i);
    }
  }

  lemma HistoryGrows(vs: seq<Visit>, v: Visit, d: Setting)
    requires IsHistory(vs, d) && IsVisit(v) && SameHouse(v.setting, d)
    requires if vs == [] then !v.before else Follows(vs[|vs| - 1], v)
    ensures IsHistory(vs + [v], d)
  {
    hide IsVisit, Follows;
    var all := vs + [v];
    forall i | 0 < i < |all| ensures Follows(all[i - 1], all[i]) {
      if i < |vs| {
        assert Follows(vs[i - 1], vs[i]);
      }
    }
    forall i | 0 <= i < |all| ensures IsVisit(all[i]) {
      if i < |vs| {
        assert IsVisit(vs[i]);
      }
    }
  }

  predicate AskedInline(vs: seq<Visit>, n: nat)
    requires n <= |vs|
  {
    exists j :: 0 <= j < n && !vs[j].forked && Asked(vs[j])
  }

  lemma {:induction false} FlagIsAskedInline(vs: seq<Visit>, d: Setting, i: nat)
    requires IsHistory(vs, d) && i < |vs|
    ensures vs[i].before <==> AskedInline(vs, i)
  {
    hide Chronicle, LogOf, Served, Asked;
    if i > 0 {
      FlagIsAskedInline(vs, d, i - 1);
      assert IsVisit(vs[i - 1]) && Follows(vs[i - 1], vs[i]);
      if AskedInline(vs, i) {
        var j :| 0 <= j < i && !vs[j].forked && Asked(vs[j]);
        assert j == i - 1 || AskedInline(vs, i - 1);
      }
    }
  }

  /** In a connection's log the command, if it ran, comes last, after the close; and if a request of this connection
      asked, the last two things before the close are that request and the answer to it. */
  lemma LogOrder(v: Visit)
    requires IsVisit(v)
    ensures RanCommand in v.log <==> v.before || Asked(v)
    ensures var n := |v.log| - (if v.before || Asked(v) then 2 else 1);
            && n >= 0 && v.log[n] == Closed
            && (forall i :: 0 <= i < n ==> v.log[i].Took? || v.log[i].Replied?)
            && (n < |v.log| - 1 ==> v.log[n + 1] == RanCommand)
            && (Asked(v) ==> v.served != [] && n >= 2 && v.log[n - 2] == Took(v.served[|v.served| - 1].line)
                             && v.log[n - 1] == Replied(v.served[|v.served| - 1].line))
  {
    hide Chronicle, Served, Asks;
    var turns: seq<LogEntry> :|
      && FlagSoFar(v.setting.codec.parse, v.setting.gate, v.served, v.before, v.before || Asked(v), Stop, turns)
      && v.log == turns + [Closed] + (if v.before || Asked(v) then [RanCommand] else []);
    var n := |turns|;
    assert forall i :: 0 <= i < n ==> turns[i] in turns;
    if Asked(v) {
      assert turns[n - 2..][0] == turns[n - 2] && turns[n - 2..][1] == turns[n - 1];
    }
    if v.before || Asked(v) {
      assert v.log[n + 1] == RanCommand;
    }
  }

  /** The shutdown command runs at the end of a connection exactly if an admitted request on it asked, or one
      on an earlier connection that the daemon had to serve inline. */
  lemma RunsExactlyIfAsked(vs: seq<Visit>, d: Setting, i: nat)
    requires IsHistory(vs, d) && i < |vs|
    ensures RanCommand in vs[i].log <==> Asked(vs[i]) || AskedInline(vs, i)
  {
    hide IsVisit, Asked, AskedInline;
    FlagIsAskedInline(vs, d, i);
    LogOrder(vs[i]);
  }

  /** The visit took a request that was let in and whose verb is "shutdown". */
  ghost predicate TookShutdown(v: Visit, parse: Text -> Parsed, g: Gate) {
    exists f, req :: f in v.served && parse(f.line) == Object(req) && LetIn(g, req) && IsShutdown(req)
  }

  /** The same by the members of the requests: no other verb, and no request that is not let in, runs the command. */
  lemma RunsForShutdownOnly(vs: seq<Visit>, d: Setting, i: nat)
    requires IsHistory(vs, d) && i < |vs|
    ensures RanCommand in vs[i].log <==>
              exists j: nat :: j <= i && (j == i || !vs[j].forked) && TookShutdown(vs[j], d.codec.parse, d.gate)
  {
    hide IsVisit;
    RunsExactlyIfAsked(vs, d, i);
    forall j: nat | j <= i ensures Asked(vs[j]) <==> TookShutdown(vs[j], d.codec.parse, d.gate) {
      assert SameHouse(vs[j].setting, d);
      AskedByName(vs[j]);
    }
  }

  lemma AskedByName(v: Visit)
    ensures Asked(v) <==> TookShutdown(v, v.setting.codec.parse, v.setting.gate)
  {
    if Asked(v) {
      var f :| f in v.served && Asks(v.setting.codec.parse, v.setting.gate, f.line);
      var req := v.setting.codec.parse(f.line).req;
      assert LetIn(v.setting.gate, req) && IsShutdown(req);
    }
  }

  /** What one inline shutdown does: the flag is never lowered, so every later connection, forked or not,
      ends in the shutdown command whether or not it asked. */
  lemma FlagIsNeverLowered(vs: seq<Visit>, d: Setting, j: nat, i: nat)
    requires IsHistory(vs, d) && j < i < |vs| && !vs[j].forked && Asked(vs[j])
    ensures vs[i].log != [] && vs[i].log[|vs[i].log| - 1] == RanCommand
  {
    hide IsVisit, Asked;
    assert AskedInline(vs, i);
    FlagIsAskedInline(vs, d, i);
    LogOrder(vs[i]);
  }

  /** Every connection begins with the daemon's effective uid, whatever the earlier ones did, and with its effective
      gid if no account has a gid the kernel accepts and a uid it refuses. */
  lemma {:induction false} IdsAreKept(vs: seq<Visit>, d: Setting, i: nat)
    requires IsHistory(vs, d) && i < |vs|
    ensures vs[i].start.creds.euid == vs[0].start.creds.euid
    ensures NoHalfAccounts(d.passwd, d.validIds) ==> vs[i].start.creds.egid == vs[0].start.creds.egid
  {
    hide IsVisit, NoHalfAccounts;
    if i > 0 {
      IdsAreKept(vs, d, i - 1);
      assert Follows(vs[i - 1], vs[i]);
      VisitShows(vs[i - 1]);
    }
  }

  lemma VisitShows(v: Visit)
    requires IsVisit(v)
    ensures v.end.creds.euid == v.start.creds.euid
    ensures NoHalfAccounts(v.setting.passwd, v.setting.validIds) ==> v.end.creds.egid == v.start.creds.egid
    ensures NoneAdmitted(v.setting.codec.parse, v.setting.gate, v.served) ==> v.end == v.start
  {
    hide LogOf, Served, Chronicle, Asked, NoneAdmitted, NoHalfAccounts, CallsAccounted, AllBegunAs, NoneFaulty;
    WhatItShows(v.setting, v.stages, v.served, v.replies, v.start, v.end, v.broken);
  }

  /** What an inline visit leaves to the next one: if the daemon is root and no call failed, the groups of the last
      user it tried. A forked visit leaves nothing. */
  lemma GroupsAreLeft(vs: seq<Visit>, d: Setting, i: nat)
    requires IsHistory(vs, d) && 0 < i < |vs|
    ensures var v, next := vs[i - 1], vs[i].start.creds.groups;
            && (v.forked ==> next == v.start.creds.groups)
            && (!v.forked && v.start.creds.euid == 0 && v.end.faults == v.start.faults ==>
                  next == match LastUser(v.setting, v.stages)
                          case Some(a) => GroupsOf(a)
                          case None => v.start.creds.groups)
  {
    hide LogOf, Served, Asked, Truthful;
    var v := vs[i - 1];
    assert IsVisit(v) && Follows(v, vs[i]);
    if !v.forked && v.start.creds.euid == 0 && v.end.faults == v.start.faults {
      GroupsLeak(v.setting, v.stages, v.start, v.end);
    }
  }

  // ---------------------------------------------------------------- fail closed

  /** A request that did anything to its process was admitted by the gate. */
  predicate OnlyAdmittedAct(vs: seq<Visit>, parse: Text -> Parsed, g: Gate) {
    forall i, j :: 0 <= i < |vs| && 0 <= j < |vs[i].stages| && vs[i].stages[j].after != vs[i].stages[j].before ==>
      AdmittedLine(parse, g, vs[i].stages[j].frame.line)
  }

  /** Nothing happened at all: no process was changed and no shutdown command run. */
  predicate Nothing(vs: seq<Visit>) {
    forall i :: 0 <= i < |vs| ==> vs[i].end == vs[i].start && RanCommand !in vs[i].log
  }

  lemma ActsOnlyAdmitted(vs: seq<Visit>, d: Setting)
    requires IsHistory(vs, d)
    ensures OnlyAdmittedAct(vs, d.codec.parse, d.gate)
  {
    hide LogOf, Served, Asked, VerbTruth, Confined, AdmittedLine, InStepWith;
    forall i, j | 0 <= i < |vs| && 0 <= j < |vs[i].stages| && vs[i].stages[j].after != vs[i].stages[j].before
      ensures AdmittedLine(d.codec.parse, d.gate, vs[i].stages[j].frame.line)
    {
      assert IsVisit(vs[i]);
      assert Truthful(vs[i].setting, vs[i].stages[j]);
    }
  }

  lemma ClosedGate(vs: seq<Visit>, d: Setting, i: nat)
    requires IsHistory(vs, d) && d.gate == Gate(false, None) && i < |vs|
    ensures vs[i].end == vs[i].start && RanCommand !in vs[i].log
  {
    hide IsVisit;
    assert forall v :: v in vs ==> !Asked(v);
    RunsExactlyIfAsked(vs, d, i);
    VisitShows(vs[i]);
  }

  /** From the command line to the last byte of the last connection: whatever clients send, only a request that the
      resolved gate admits does anything; with no open posture and no secret from any source, nothing happens. */
  method StartAndServe(c: Config, files: map<Text, SecretFile>, daemon: Server, k: Process, inputs: seq<Text>,
                       grepBin: Text)
    returns (ghost vs: seq<Visit>)
    requires k.Ready() && !k.alone && !daemon.shutdownRequested && daemon.log == []
    modifies daemon, k
    ensures var gate := Gate(OpenedBy(c, files, daemon.codec.parse), FirstOf(Sources(c, files, daemon.codec.parse)));
            && daemon.GateValue() == gate && IsHistory(vs, daemon.SettingOf(k, grepBin)) && |vs| == |inputs|
            && OnlyAdmittedAct(vs, daemon.codec.parse, gate)
            && (gate == Gate(false, None) ==> Nothing(vs))
  {
    hide IsHistory, OpenedBy, Sources, FirstOf, OnlyAdmittedAct, Concurrency.IsRun, NoHalfAccounts;
    ConfigureGate(c, files, daemon);
    vs := AcceptLoop(daemon, k, inputs, grepBin);
    ActsOnlyAdmitted(vs, daemon.SettingOf(k, grepBin));
    if daemon.GateValue() == Gate(false, None) {
      forall i | 0 <= i < |vs| ensures vs[i].end == vs[i].start && RanCommand !in vs[i].log {
        ClosedGate(vs, daemon.SettingOf(k, grepBin), i);
      }
    }
  }
}
