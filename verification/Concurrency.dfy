/** Any number of children of one daemon, each serving a request system call by system call, in any
    interleaving and with a crash possible anywhere: write_file and put_file (writers), get_file
    (getters) and read_file (slurpers) on one file system. */
module Concurrency {
  import opened Base
  import opened FileSystem
  import opened TempNames
  import opened WriterProtocol
  import opened ReaderProtocol

  datatype Proc =
    | Writer(job: Job, pc: Pc)
    | Getter(path: Text, get: Get)
    | Slurper(path: Text, slurp: Slurp)
    | Crashed

  datatype Sys = Sys(fs: Fs, procs: map<nat, Proc>)

  predicate Over(p: Proc) {
    match p
    case Writer(_, pc) => pc.Ended?
    case Getter(_, g) => g.GDone? || g.GShort? || g.GFailed?
    case Slurper(_, r) => r.RDone? || r.RFailed?
    case Crashed => true
  }

  predicate IsStart(pid: nat, p: Proc) {
    match p
    case Writer(j, pc) => pc == Ready && j.pid == pid
    case Getter(_, g) => g == GReady
    case Slurper(_, r) => r == RReady
    case Crashed => false
  }

  predicate Moves(p: Proc, fs: Fs, p': Proc, fs': Fs) {
    match p
    case Writer(j, pc) => p'.Writer? && p'.job == j && WriterStep(j, WState(pc, fs), WState(p'.pc, fs'))
    case Getter(path, g) => fs' == fs && p'.Getter? && p'.path == path && GetStep(path, fs, g, p'.get)
    case Slurper(path, r) => fs' == fs && p'.Slurper? && p'.path == path && SlurpStep(path, fs, r, p'.slurp)
    case Crashed => false
  }

  /** `Outside` is a change of the files by something that is no request of these kinds, such as a command. */
  datatype Event =
    | Start(pid: nat, proc: Proc)
    | Step(pid: nat, proc: Proc)
    | Crash(pid: nat)
    | Outside(pid: nat)

  predicate Happens(s: Sys, e: Event, s': Sys) {
    match e
    case Start(pid, p) =>
      (pid in s.procs ==> Over(s.procs[pid])) && IsStart(pid, p) && s' == Sys(s.fs, s.procs[pid := p])
    case Step(pid, p) => pid in s.procs && Moves(s.procs[pid], s.fs, p, s'.fs) && s'.procs == s.procs[pid := p]
    case Crash(pid) => pid in s.procs && s' == Sys(s.fs, s.procs[pid := Crashed])
    case Outside(_) => Meddles(s.fs, s'.fs) && s'.procs == s.procs
  }

  /** Any change at all that leaves the file system consistent; inode numbers are not used twice. */
  predicate Meddles(fs: Fs, fs': Fs) {
    Valid(fs') && fs.inodes.Keys <= fs'.inodes.Keys && fs.next <= fs'.next
  }

  datatype Run = Run(states: seq<Sys>, events: seq<Event>) {
    /** The state it has come to. */
    function Last(): Sys {
      if states == [] then Sys(Fs(map[], map[], 0), map[]) else states[|states| - 1]
    }
  }

  /** Starts from any consistent file system, stale temp files included, with no request in progress. */
  predicate IsRun(r: Run) {
    && |r.states| == |r.events| + 1
    && Valid(r.states[0].fs) && r.states[0].procs == map[]
    && forall i :: 0 <= i < |r.events| ==> Happens(r.states[i], r.events[i], r.states[i + 1])
  }

  function Extended(r: Run, e: Event, s: Sys): Run {
    Run(r.states + [s], r.events + [e])
  }

  lemma ExtendRun(r: Run, e: Event, s: Sys)
    requires IsRun(r) && Happens(r.Last(), e, s)
    ensures IsRun(Extended(r, e, s)) && Extended(r, e, s).Last() == s
  {
    var r' := Extended(r, e, s);
    forall i | 0 <= i < |r'.events| ensures Happens(r'.states[i], r'.events[i], r'.states[i + 1]) {
      if i < |r.events| {
        assert Happens(r.states[i], r.events[i], r.states[i + 1]);
      }
    }
  }

  /** A run in which process `pid` then begins or makes a step. */
  function Begun(r: Run, pid: nat, p: Proc): Run {
    Extended(r, Start(pid, p), Sys(r.Last().fs, r.Last().procs[pid := p]))
  }

  function Stepped(r: Run, pid: nat, p: Proc, fs: Fs): Run {
    Extended(r, Step(pid, p), Sys(fs, r.Last().procs[pid := p]))
  }

  lemma BegunIsRun(r: Run, pid: nat, p: Proc)
    requires IsRun(r) && IsStart(pid, p) && (pid in r.Last().procs ==> Over(r.Last().procs[pid]))
    ensures IsRun(Begun(r, pid, p))
  {
    ExtendRun(r, Start(pid, p), Sys(r.Last().fs, r.Last().procs[pid := p]));
  }

  lemma SteppedIsRun(r: Run, pid: nat, p: Proc, fs: Fs)
    requires IsRun(r) && pid in r.Last().procs && Moves(r.Last().procs[pid], r.Last().fs, p, fs)
    ensures IsRun(Stepped(r, pid, p, fs))
  {
    ExtendRun(r, Step(pid, p), Sys(fs, r.Last().procs[pid := p]));
  }

  function Before(r: Run): Run
    requires |r.states| > 1 && |r.events| > 0
  {
    Run(r.states[..|r.states| - 1], r.events[..|r.events| - 1])
  }

  lemma BeforeIsRun(r: Run)
    requires IsRun(r) && |r.events| > 0
    ensures IsRun(Before(r))
    ensures Happens(Before(r).Last(), r.events[|r.events| - 1], r.Last())
  {
    var n, b := |r.events|, Before(r);
    forall i | 0 <= i < |b.events| ensures Happens(b.states[i], b.events[i], b.states[i + 1]) {
      assert Happens(r.states[i], r.events[i], r.states[i + 1]);
    }
    assert Happens(r.states[n - 1], r.events[n - 1], r.states[n]);
  }

  // ---------------------------------------------------------------- one process among others

  function Doing(r: Run, pid: nat): Option<Proc> {
    if pid in r.Last().procs then Some(r.Last().procs[pid]) else None
  }

  /** The process can begin a request. */
  predicate IsIdle(r: Run, pid: nat) {
    Doing(r, pid).Some? ==> Over(Doing(r, pid).value)
  }

  predicate Extends(r: Run, r': Run) {
    && |r.states| == |r.events| + 1 && |r'.states| == |r'.events| + 1
    && r.states <= r'.states && r.events <= r'.events
  }

  lemma Itself(r: Run)
    requires IsRun(r)
    ensures Extends(r, r)
  {
  }

  /** From `r` to `r'` only other processes moved; if there are none, nothing did. */
  ghost predicate Interlude(r: Run, r': Run, pid: nat, alone: bool) {
    && IsRun(r') && Extends(r, r') && (alone ==> r' == r)
    && (forall i :: |r.events| <= i < |r'.events| ==> r'.events[i].pid != pid)
    && Doing(r', pid) == Doing(r, pid) && Meddles(r.Last().fs, r'.Last().fs)
  }

  lemma {:induction false} RunIsValid(r: Run)
    requires IsRun(r)
    ensures Valid(r.Last().fs)
    decreases |r.events|
  {
    if |r.events| > 0 {
      BeforeIsRun(r);
      RunIsValid(Before(r));
      StepMeddles(Before(r).Last(), r.events[|r.events| - 1], r.Last());
    }
  }

  lemma StepMeddles(s: Sys, e: Event, s': Sys)
    requires Valid(s.fs) && Happens(s, e, s')
    ensures Meddles(s.fs, s'.fs)
  {
  }

  /** Every way a run can go on without this process is such an interlude. */
  lemma {:induction false} AnyInterlude(r: Run, r': Run, pid: nat)
    requires IsRun(r) && IsRun(r') && Extends(r, r')
    requires forall i :: |r.events| <= i < |r'.events| ==> r'.events[i].pid != pid
    ensures Interlude(r, r', pid, false)
    decreases |r'.events|
  {
    RunIsValid(r);
    if |r'.events| > |r.events| {
      BeforeIsRun(r');
      var b := Before(r');
      assert forall i :: |r.events| <= i < |b.events| ==> b.events[i] == r'.events[i];
      assert r.states <= b.states && r.events <= b.events;
      AnyInterlude(r, b, pid);
      RunIsValid(b);
      StepMeddles(b.Last(), r'.events[|r'.events| - 1], r'.Last());
    } else {
      assert r'.states == r.states;
    }
  }

  /** Any consistent change of the files can come about in an interlude. */
  lemma Explained(r: Run, pid: nat, alone: bool, fs: Fs)
    requires IsRun(r) && Meddles(r.Last().fs, fs) && (alone ==> fs == r.Last().fs)
    ensures exists r' :: Interlude(r, r', pid, alone) && r'.Last().fs == fs
  {
    if alone {
      assert Interlude(r, r, pid, alone);
    } else {
      var e, s := Outside(pid + 1), Sys(fs, r.Last().procs);
      ExtendRun(r, e, s);
      assert Interlude(r, Extended(r, e, s), pid, alone);
    }
  }

  /** Just after the last start under this pid, or 0. */
  function LastStart(events: seq<Event>, pid: nat): (b: nat)
    ensures b <= |events|
    ensures b > 0 ==> events[b - 1].Start? && events[b - 1].pid == pid
    ensures forall i :: b <= i < |events| ==> !(events[i].Start? && events[i].pid == pid)
  {
    if events == [] then 0
    else if events[|events| - 1].Start? && events[|events| - 1].pid == pid then |events|
    else LastStart(events[..|events| - 1], pid)
  }

  /** Where the last request served under this pid begins: the state just after its start, or the first state. */
  function Began(r: Run, pid: nat): (b: nat)
    ensures b <= |r.events|
  {
    LastStart(r.events, pid)
  }

  /** A target whose temp no other writer's path can be taken for: without a NUL, which would cut the names the
      kernel sees, and not itself the temp name of such a target. */
  ghost predicate Ordinary(path: Text)
    decreases |path|
  {
    && '\0' !in path
    && forall p: Text, pid: nat :: |p| < |path| && path == TempName(p, pid) ==> !Ordinary(p)
  }

  /** Names a live writer could be using for its temp. */
  ghost predicate IsWorkName(w: Path) {
    exists p: Text, pid: nat :: Ordinary(p) && w == TempName(p, pid)
  }

  lemma OrdinaryIsNoWorkName(path: Text)
    ensures Ordinary(path) <==> '\0' !in path && !IsWorkName(Name(path))
  {
    if '\0' !in path && IsWorkName(path) {
      var p: Text, pid: nat :| Ordinary(p) && path == TempName(p, pid);
      assert |p| < |path|;
    }
  }

  /** Nothing but requests, and every writer's target ordinary. */
  ghost predicate Tame(e: Event) {
    !e.Outside? && (e.Start? && e.proc.Writer? ==> Ordinary(e.proc.job.path))
  }

  ghost predicate IsTame(r: Run) {
    forall i :: 0 <= i < |r.events| ==> Tame(r.events[i])
  }

  lemma BeforeIsTame(r: Run)
    requires IsRun(r) && IsTame(r) && |r.events| > 0
    ensures IsTame(Before(r)) && Tame(r.events[|r.events| - 1])
  {
    assert forall i :: 0 <= i < |Before(r).events| ==> Before(r).events[i] == r.events[i];
  }

  /** One event later, unless it starts a new request under this pid, the earlier moments are what they were. */
  lemma Earlier(r: Run, pid: nat)
    requires IsRun(r) && |r.events| > 0
    ensures var e := r.events[|r.events| - 1]; !(e.Start? && e.pid == pid) ==> Began(r, pid) == Began(Before(r), pid)
    ensures forall i :: 0 <= i < |Before(r).states| ==> r.states[i] == Before(r).states[i]
    ensures forall i :: 0 <= i < |Before(r).events| ==> r.events[i] == Before(r).events[i]
  {
  }

  /** As long as it starts nothing new, a process's request began where it did. */
  lemma {:induction false} BeganStays(r: Run, r': Run, pid: nat)
    requires IsRun(r) && IsRun(r') && Extends(r, r')
    requires forall i :: |r.events| <= i < |r'.events| ==> !(r'.events[i].Start? && r'.events[i].pid == pid)
    ensures Began(r', pid) == Began(r, pid)
    decreases |r'.events|
  {
    if |r'.events| > |r.events| {
      BeforeIsRun(r');
      var b := Before(r');
      assert forall i :: |r.events| <= i < |b.events| ==> b.events[i] == r'.events[i];
      assert r.states <= b.states && r.events <= b.events;
      BeganStays(r, b, pid);
      Earlier(r', pid);
    } else {
      assert r'.states == r.states && r'.events == r.events;
    }
  }

  // ---------------------------------------------------------------- a request in progress

  /** In the history `h`, which goes on from `h0`, process `pid` is at `p` of a request it began after `h0`. */
  ghost predicate ServesAt(h0: Run, h: Run, pid: nat, p: Proc, fs: Fs) {
    && Extends(h0, h) && IsRun(h) && h.Last().fs == fs && Valid(fs)
    && Doing(h, pid) == Some(p) && Began(h, pid) == |h0.events| + 1
  }

  lemma Begins(h0: Run, pid: nat, p: Proc)
    requires IsRun(h0) && IsIdle(h0, pid) && Valid(h0.Last().fs) && IsStart(pid, p)
    ensures ServesAt(h0, Begun(h0, pid, p), pid, p, h0.Last().fs)
  {
    BegunIsRun(h0, pid, p);
  }

  /** Others run, and this process rests. */
  lemma Rests(h0: Run, h: Run, mid: Run, pid: nat, alone: bool, p: Proc)
    requires ServesAt(h0, h, pid, p, h.Last().fs) && Interlude(h, mid, pid, alone)
    ensures ServesAt(h0, mid, pid, p, mid.Last().fs)
  {
    BeganStays(h, mid, pid);
  }

  /** Others run, and then this process makes a step. */
  lemma GoesOn(h0: Run, h: Run, mid: Run, pid: nat, alone: bool, p: Proc, p': Proc, fs': Fs)
    requires ServesAt(h0, h, pid, p, h.Last().fs) && Interlude(h, mid, pid, alone)
    requires Moves(p, mid.Last().fs, p', fs') && Valid(fs')
    ensures ServesAt(h0, Stepped(mid, pid, p', fs'), pid, p', fs')
  {
    hide Moves;
    Rests(h0, h, mid, pid, alone, p);
    SteppedIsRun(mid, pid, p', fs');
    BeganStays(mid, Stepped(mid, pid, p', fs'), pid);
  }

  lemma StandsStill(h: Run, pid: nat, alone: bool)
    requires IsRun(h) && Valid(h.Last().fs)
    ensures Interlude(h, h, pid, alone)
  {
  }

  /** Whatever a process is doing, it began. */
  lemma {:induction false} BeganAtStart(r: Run, pid: nat)
    requires IsRun(r) && pid in r.Last().procs
    ensures Began(r, pid) > 0
    decreases |r.events|
  {
    if |r.events| > 0 {
      BeforeIsRun(r);
      if r.events[|r.events| - 1].pid != pid || !r.events[|r.events| - 1].Start? {
        BeganAtStart(Before(r), pid);
      }
    }
  }

  // ---------------------------------------------------------------- the invariant

  /** The writer has its temp open. */
  predicate Active(p: Proc) {
    p.Writer? && (p.pc.Writing? || p.pc.Owned? || p.pc.Moded? || p.pc.Failing?)
  }

  /** The temp entry, and it alone, names the writer's inode; the inode holds what has been written. */
  ghost predicate WriterOk(fs: Fs, pid: nat, p: Proc)
    requires p.Writer?
  {
    && p.job.pid == pid && Ordinary(p.job.path)
    && (Active(p) ==>
          && Temp(p.job) in fs.dir && fs.dir[Temp(p.job)] == p.pc.ino && p.pc.ino in fs.inodes
          && (forall q :: q in fs.dir && fs.dir[q] == p.pc.ino ==> q == Temp(p.job))
          && Written(p.job, p.pc, fs.inodes[p.pc.ino]))
  }

  predicate Written(j: Job, pc: Pc, node: Inode) {
    match pc
    case Writing(_, _, done) => done <= |j.payload| && node == TempInode(j, j.payload[..done])
    case Owned(seen, _) => node == FinalInode(j, seen).(mode := node.mode)
    case Moded(seen, _) => node == FinalInode(j, seen)
    case _ => true
  }

  /** No writer has this inode as its private temp: it will never change again. */
  ghost predicate Settled(s: Sys, ino: nat) {
    ino in s.fs.inodes && forall pid :: pid in s.procs && Active(s.procs[pid]) ==> s.procs[pid].pc.ino != ino
  }

  ghost predicate GetterOk(s: Sys, path: Text, g: Get) {
    !IsWorkName(Name(path)) ==>
      match g
      case GOpened(ino, snap) => Settled(s, ino) && s.fs.inodes[ino] == snap
      case GSending(ino, snap, stat, sent) =>
        && Settled(s, ino) && s.fs.inodes[ino] == snap == stat
        && |sent| <= |snap.data| && sent == snap.data[..|sent|]
      case GDone(snap, stat, sent) => stat == snap && sent == snap.data
      case GShort(_, _, _) => false
      case _ => true
  }

  ghost predicate SlurperOk(s: Sys, path: Text, r: Slurp) {
    !IsWorkName(Name(path)) ==>
      match r
      case RReading(seen, ino, snap, got) =>
        && Settled(s, ino) && s.fs.inodes[ino] == snap
        && |got| <= SizeOf(seen) && |got| <= |snap.data| && got == snap.data[..|got|]
      case RDone(seen, snap, got) => got == snap.data[..Min(SizeOf(seen), |snap.data|)]
      case _ => true
  }

  ghost predicate ProcOk(s: Sys, pid: nat, p: Proc) {
    match p
    case Writer(_, _) => WriterOk(s.fs, pid, p)
    case Getter(path, g) => GetterOk(s, path, g)
    case Slurper(path, r) => SlurperOk(s, path, r)
    case Crashed => true
  }

  ghost predicate Inv(s: Sys) {
    Valid(s.fs) && forall pid :: pid in s.procs ==> ProcOk(s, pid, s.procs[pid])
  }

  /** What an open name of a settled kind of path refers to is settled. */
  lemma NamedIsSettled(s: Sys, path: Path)
    requires Inv(s) && path in s.fs.dir && !IsWorkName(path)
    ensures Settled(s, s.fs.dir[path])
  {
    forall pid | pid in s.procs && Active(s.procs[pid]) ensures s.procs[pid].pc.ino != s.fs.dir[path] {
      assert ProcOk(s, pid, s.procs[pid]);
      TempsAreWorkNames(s.procs[pid].job);
    }
  }

  lemma TempsAreWorkNames(j: Job)
    requires Ordinary(j.path)
    ensures Temp(j) == TempName(j.path, j.pid) && Target(j) == j.path && IsWorkName(Temp(j)) && Temp(j) != Target(j)
  {
    TempIsTarget(j);
  }

  /** The one entry a writer's step may give a new meaning, and the meaning it gets. */
  predicate Commits(s: Sys, e: Event) {
    && e.Step? && e.pid in s.procs && s.procs[e.pid].Writer? && s.procs[e.pid].pc.Moded?
    && e.proc.Writer? && e.proc.pc == Ended(true)
  }

  /** Outside the writer's private inode and temp entry, a step that is no commit changes nothing. */
  lemma WriterLocal(s: Sys, pid: nat, p': Proc, s': Sys)
    requires Inv(s) && pid in s.procs && s.procs[pid].Writer? && Happens(s, Step(pid, p'), s')
    ensures Valid(s'.fs) && p'.Writer? && WriterOk(s'.fs, pid, p')
    ensures forall i :: i in s.fs.inodes && (Active(s.procs[pid]) ==> i != s.procs[pid].pc.ino) ==>
              i in s'.fs.inodes && s'.fs.inodes[i] == s.fs.inodes[i]
    ensures forall q :: q != Temp(s.procs[pid].job) && !(Commits(s, Step(pid, p')) && q == Target(s.procs[pid].job)) ==>
              (q in s'.fs.dir <==> q in s.fs.dir) && (q in s.fs.dir ==> s'.fs.dir[q] == s.fs.dir[q])
    ensures Active(p') ==> p'.pc.ino == if Active(s.procs[pid]) then s.procs[pid].pc.ino else s.fs.next
    ensures Commits(s, Step(pid, p')) ==>
              && s'.fs.dir == (s.fs.dir - {Temp(s.procs[pid].job)})[Target(s.procs[pid].job) := s.procs[pid].pc.ino]
              && s'.fs.inodes == s.fs.inodes
  {
    assert ProcOk(s, pid, s.procs[pid]);
    WriterKeepsOk(s.procs[pid].job, pid, WState(s.procs[pid].pc, s.fs), WState(p'.pc, s'.fs));
  }

  /** The writer's own part of the invariant, step by step. */
  lemma WriterKeepsOk(j: Job, pid: nat, a: WState, b: WState)
    requires Valid(a.fs) && WriterOk(a.fs, pid, Writer(j, a.pc)) && WriterStep(j, a, b)
    ensures Valid(b.fs) && WriterOk(b.fs, pid, Writer(j, b.pc))
  {
    TempIsTarget(j);
    match a.pc
    case Inspected(_) =>
      assert j.payload[..0] == [];
    case Writing(_, _, done) =>
      if b.pc.Writing? {
        assert j.payload[..done] + j.payload[done..b.pc.done] == j.payload[..b.pc.done];
      } else {
        assert done == |j.payload| ==> j.payload[..done] == j.payload;
      }
    case _ =>
  }

  /** Temps of different writers, and targets, have different names. */
  lemma TempsApart(a: Job, b: Job)
    requires a.pid != b.pid && Ordinary(a.path) && Ordinary(b.path)
    ensures Temp(a) != Temp(b) && Target(a) != Temp(b)
  {
    TempsAreWorkNames(a);
    TempsAreWorkNames(b);
    TempNameInjective(a.path, a.pid, b.path, b.pid);
    OrdinaryIsNoWorkName(a.path);
  }

  lemma OtherWriter(s: Sys, pid: nat, p': Proc, s': Sys, other: nat)
    requires Inv(s) && pid in s.procs && s.procs[pid].Writer? && Happens(s, Step(pid, p'), s')
    requires other in s.procs && other != pid && s.procs[other].Writer?
    ensures WriterOk(s'.fs, other, s.procs[other])
    ensures Active(s.procs[other]) ==> (Active(p') ==> s.procs[other].pc.ino != p'.pc.ino)
  {
    var p, o := s.procs[pid], s.procs[other];
    assert ProcOk(s, pid, p) && ProcOk(s, other, o);
    WriterLocal(s, pid, p', s');
    TempsApart(p.job, o.job);
    TempsApart(o.job, p.job);
    if Active(o) {
      assert s.fs.dir[Temp(o.job)] == o.pc.ino;
      forall q | q in s'.fs.dir && s'.fs.dir[q] == o.pc.ino ensures q == Temp(o.job) {
        if q != Temp(p.job) && !(Commits(s, Step(pid, p')) && q == Target(p.job)) {
          assert q in s.fs.dir && s.fs.dir[q] == o.pc.ino;
        }
      }
    }
  }

  lemma SettledStays(s: Sys, e: Event, s': Sys, ino: nat)
    requires Inv(s) && Tame(e) && Happens(s, e, s') && Settled(s, ino)
    ensures Settled(s', ino) && s'.fs.inodes[ino] == s.fs.inodes[ino]
  {
    if e.Step? && s.procs[e.pid].Writer? {
      WriterLocal(s, e.pid, e.proc, s');
    }
  }

  lemma InvStep(s: Sys, e: Event, s': Sys)
    requires Inv(s) && Tame(e) && Happens(s, e, s')
    ensures Inv(s')
  {
    if e.Step? && s.procs[e.pid].Writer? {
      WriterLocal(s, e.pid, e.proc, s');
    }
    forall pid | pid in s'.procs ensures ProcOk(s', pid, s'.procs[pid]) {
      if pid == e.pid {
        MoverOk(s, e, s');
      } else {
        var p := s.procs[pid];
        assert ProcOk(s, pid, p);
        BystanderOk(s, e, s', pid);
      }
    }
  }

  lemma BystanderOk(s: Sys, e: Event, s': Sys, pid: nat)
    requires Inv(s) && Tame(e) && Happens(s, e, s') && pid in s.procs && pid != e.pid
    ensures ProcOk(s', pid, s.procs[pid])
  {
    var p := s.procs[pid];
    assert ProcOk(s, pid, p);
    match p
    case Writer(_, _) =>
      if e.Step? && s.procs[e.pid].Writer? {
        OtherWriter(s, e.pid, e.proc, s', pid);
      }
    case Getter(path, g) =>
      if !IsWorkName(Name(path)) && (g.GOpened? || g.GSending?) {
        SettledStays(s, e, s', g.ino);
      }
    case Slurper(path, r) =>
      if !IsWorkName(Name(path)) && r.RReading? {
        SettledStays(s, e, s', r.ino);
      }
    case Crashed =>
  }

  lemma MoverOk(s: Sys, e: Event, s': Sys)
    requires Inv(s) && Tame(e) && Happens(s, e, s')
    ensures ProcOk(s', e.pid, s'.procs[e.pid])
  {
    if e.Step? {
      var p := s.procs[e.pid];
      assert ProcOk(s, e.pid, p);
      match p
      case Writer(_, _) => WriterLocal(s, e.pid, e.proc, s');
      case Getter(path, g) => GetterMoves(s, e, s');
      case Slurper(path, r) => SlurperMoves(s, e, s');
    }
  }

  lemma GetterMoves(s: Sys, e: Event, s': Sys)
    requires Inv(s) && e.Step? && Happens(s, e, s') && s.procs[e.pid].Getter?
    ensures ProcOk(s', e.pid, e.proc)
  {
    var path, g, g' := s.procs[e.pid].path, s.procs[e.pid].get, e.proc.get;
    assert ProcOk(s, e.pid, s.procs[e.pid]);
    if !IsWorkName(Name(path)) {
      if g.GReady? && g'.GOpened? {
        NamedIsSettled(s, Name(path));
        SettledStays(s, e, s', g'.ino);
      } else if g.GOpened? || g.GSending? {
        SettledStays(s, e, s', g.ino);
        if g.GSending? && g'.GSending? {
          assert g'.sent == g.snap.data[..|g'.sent|];
        }
      }
    }
  }

  lemma SlurperMoves(s: Sys, e: Event, s': Sys)
    requires Inv(s) && e.Step? && Happens(s, e, s') && s.procs[e.pid].Slurper?
    ensures ProcOk(s', e.pid, e.proc)
  {
    var path, r, r' := s.procs[e.pid].path, s.procs[e.pid].slurp, e.proc.slurp;
    assert ProcOk(s, e.pid, s.procs[e.pid]);
    if !IsWorkName(Name(path)) {
      if r.RStatted? && r'.RReading? {
        NamedIsSettled(s, Name(path));
        SettledStays(s, e, s', r'.ino);
      } else if r.RReading? {
        SettledStays(s, e, s', r.ino);
        if r'.RReading? {
          assert r'.got == r.snap.data[..|r'.got|];
        }
      }
    }
  }

  lemma {:induction false} InvHolds(r: Run)
    requires IsRun(r) && IsTame(r)
    ensures Inv(r.Last())
    decreases |r.events|
  {
    if |r.events| > 0 {
      BeforeIsRun(r);
      BeforeIsTame(r);
      InvHolds(Before(r));
      InvStep(Before(r).Last(), r.events[|r.events| - 1], r.Last());
    }
  }

  // ---------------------------------------------------------------- writes are atomic

  datatype Commit = Commit(job: Job, seen: Option<Inode>)

  function CommitOf(s: Sys, e: Event): Commit
    requires Commits(s, e)
  {
    Commit(s.procs[e.pid].job, s.procs[e.pid].pc.seen)
  }

  /** The file system, seen through any name that is not a live temp, changes only when a writer commits,
      and then in one step: the target names the whole payload with its final mode and owner. */
  lemma StepRefines(s: Sys, e: Event, s': Sys, w: Path)
    requires Inv(s) && Tame(e) && Happens(s, e, s') && !IsWorkName(w)
    ensures if Commits(s, e) && Target(CommitOf(s, e).job) == w
            then Lookup(s'.fs, w) == Some(FinalInode(CommitOf(s, e).job, CommitOf(s, e).seen))
            else Lookup(s'.fs, w) == Lookup(s.fs, w)
  {
    if e.Step? && s.procs[e.pid].Writer? {
      var p := s.procs[e.pid];
      assert ProcOk(s, e.pid, p);
      WriterLocal(s, e.pid, e.proc, s');
      TempsAreWorkNames(p.job);
      if w in s.fs.dir {
        NamedIsSettled(s, w);
      }
    }
  }

  /** The latest commit to `w` in a run, if there was one. */
  function LastCommit(r: Run, w: Path): Option<Commit>
    requires |r.states| == |r.events| + 1
    decreases |r.events|
  {
    if |r.events| == 0 then None
    else
      var n := |r.events| - 1;
      if Commits(r.states[n], r.events[n]) && Target(CommitOf(r.states[n], r.events[n]).job) == w
      then Some(CommitOf(r.states[n], r.events[n]))
      else LastCommit(Before(r), w)
  }

  /** What `w` should name after a run: the last committed write, or what it named at first. */
  ghost predicate Atomic(r: Run, w: Path)
    requires IsRun(r)
  {
    Lookup(r.Last().fs, w) ==
      match LastCommit(r, w)
      case Some(c) => Some(FinalInode(c.job, c.seen))
      case None => Lookup(r.states[0].fs, w)
  }

  lemma {:induction false} RunsAreAtomic(r: Run, w: Path)
    requires IsRun(r) && IsTame(r) && !IsWorkName(w)
    ensures Atomic(r, w)
    decreases |r.events|
  {
    if |r.events| > 0 {
      BeforeIsRun(r);
      BeforeIsTame(r);
      RunsAreAtomic(Before(r), w);
      InvHolds(Before(r));
      StepRefines(Before(r).Last(), r.events[|r.events| - 1], r.Last(), w);
    }
  }

  /** In event `k` of the run, since its request began, process `pid` committed this very job, and its target then
      named the whole payload. */
  ghost predicate CommittedAt(r: Run, pid: nat, j: Job, k: nat)
    requires |r.states| == |r.events| + 1
  {
    && 0 < Began(r, pid) <= k < |r.events| && r.events[k].pid == pid && Commits(r.states[k], r.events[k])
    && var c := CommitOf(r.states[k], r.events[k]);
       c.job == j && Lookup(r.states[k + 1].fs, Target(j)) == Some(FinalInode(j, c.seen))
  }

  /** A writer that reports success has committed: at a moment since its request began, its target named its whole
      payload. */
  lemma {:induction false} SuccessWasCommitted(r: Run, pid: nat)
    requires IsRun(r) && IsTame(r)
    requires pid in r.Last().procs && r.Last().procs[pid].Writer? && r.Last().procs[pid].pc == Ended(true)
    ensures exists k: nat :: CommittedAt(r, pid, r.Last().procs[pid].job, k)
    decreases |r.events|
  {
    var n := |r.events| - 1;
    hide Began, Happens, Commits;
    BeforeIsRun(r);
    BeforeIsTame(r);
    var b, e, j := Before(r), r.events[n], r.Last().procs[pid].job;
    if e.pid == pid {
      InvHolds(b);
      BeganAtStart(r, pid);
      CommitsNow(b.Last(), e, r.Last());
      Earlier(r, pid);
      assert CommittedAt(r, pid, j, n);
    } else {
      OthersMove(b.Last(), e, r.Last(), pid);
      SuccessWasCommitted(b, pid);
      var k: nat :| CommittedAt(b, pid, j, k);
      Earlier(r, pid);
      assert CommittedAt(r, pid, j, k);
    }
  }

  lemma OthersMove(s: Sys, e: Event, s': Sys, pid: nat)
    requires Happens(s, e, s') && e.pid != pid && pid in s'.procs
    ensures pid in s.procs && s.procs[pid] == s'.procs[pid]
  {
  }

  /** The step that makes a writer end in success is its commit. */
  lemma CommitsNow(s: Sys, e: Event, s': Sys)
    requires Inv(s) && Tame(e) && Happens(s, e, s')
    requires e.pid in s'.procs && s'.procs[e.pid].Writer? && s'.procs[e.pid].pc == Ended(true)
    ensures Commits(s, e) && CommitOf(s, e).job == s'.procs[e.pid].job
    ensures var c := CommitOf(s, e); Lookup(s'.fs, Target(c.job)) == Some(FinalInode(c.job, c.seen))
  {
    assert ProcOk(s, e.pid, s.procs[e.pid]);
    assert Commits(s, e);
    var j := CommitOf(s, e).job;
    TempsAreWorkNames(j);
    OrdinaryIsNoWorkName(j.path);
    StepRefines(s, e, s', Target(j));
  }

  /** A writer that has not ended in success has committed nothing since its request began. */
  lemma {:induction false} FailureCommitsNothing(r: Run, pid: nat, k: nat)
    requires IsRun(r) && pid in r.Last().procs && r.Last().procs[pid].Writer? && r.Last().procs[pid].pc != Ended(true)
    requires Began(r, pid) <= k < |r.events|
    ensures !(r.events[k].pid == pid && Commits(r.states[k], r.events[k]))
    decreases |r.events|
  {
    hide Happens, Commits;
    var n := |r.events| - 1;
    BeforeIsRun(r);
    Earlier(r, pid);
    var b, e := Before(r), r.events[n];
    assert r.states[n] == b.Last();
    if !(e.Start? && e.pid == pid) {
      OneBack(b.Last(), e, r.Last(), pid);
      if k < n {
        FailureCommitsNothing(b, pid, k);
        assert r.states[k] == b.states[k] && r.events[k] == b.events[k];
      }
    }
  }

  lemma OneBack(s: Sys, e: Event, s': Sys, pid: nat)
    requires Happens(s, e, s') && !(e.Start? && e.pid == pid)
    requires pid in s'.procs && s'.procs[pid].Writer? && s'.procs[pid].pc != Ended(true)
    ensures pid in s.procs && s.procs[pid].Writer? && s.procs[pid].pc != Ended(true)
    ensures !(e.pid == pid && Commits(s, e))
  {
  }

  /** However a writer ends short of a crash, the temp it opened is gone. */
  lemma TempIsGone(s: Sys, pid: nat, p': Proc, s': Sys)
    requires Inv(s) && Happens(s, Step(pid, p'), s') && Active(s.procs[pid]) && Over(p')
    ensures Temp(s.procs[pid].job) !in s'.fs.dir
  {
    assert ProcOk(s, pid, s.procs[pid]);
    TempsAreWorkNames(s.procs[pid].job);
  }

  // ---------------------------------------------------------------- get_file reads one version

  /** The path named this version at a moment of the run, `k`, since the request of `pid` began. */
  ghost predicate NamedAt(r: Run, pid: nat, path: Text, node: Inode, k: nat)
    requires |r.states| == |r.events| + 1
  {
    0 < Began(r, pid) <= k < |r.states| && Lookup(r.states[k].fs, Name(path)) == Some(node)
  }

  /** A get_file that runs to its end has sent exactly one whole version: one its path named while it was being
      served, whatever was written meanwhile; and what fstat told it of the size and mode was of that version. Its
      read never comes up short. */
  lemma {:induction false} GetIsSnapshot(r: Run, pid: nat)
    requires IsRun(r) && IsTame(r) && pid in r.Last().procs && r.Last().procs[pid].Getter?
    requires !IsWorkName(Name(r.Last().procs[pid].path))
    ensures !r.Last().procs[pid].get.GShort?
    ensures r.Last().procs[pid].get.GDone? ==>
              var g := r.Last().procs[pid].get;
              && g.sent == g.snap.data && g.stat == g.snap
              && exists k: nat :: NamedAt(r, pid, r.Last().procs[pid].path, g.snap, k)
  {
    InvHolds(r);
    assert ProcOk(r.Last(), pid, r.Last().procs[pid]);
    if r.Last().procs[pid].get.GDone? {
      OpenedVersion(r, pid);
    }
  }

  predicate HasSnap(g: Get) {
    g.GOpened? || g.GSending? || g.GDone?
  }

  lemma {:induction false} OpenedVersion(r: Run, pid: nat)
    requires IsRun(r) && pid in r.Last().procs && r.Last().procs[pid].Getter? && HasSnap(r.Last().procs[pid].get)
    ensures exists k: nat :: NamedAt(r, pid, r.Last().procs[pid].path, r.Last().procs[pid].get.snap, k)
    decreases |r.events|
  {
    var n := |r.events| - 1;
    hide Began;
    BeforeIsRun(r);
    var b, e, p := Before(r), r.events[n], r.Last().procs[pid];
    if e.pid == pid && b.Last().procs[pid].get == GReady {
      BeganAtStart(r, pid);
      Earlier(r, pid);
      assert NamedAt(r, pid, p.path, p.get.snap, n);
    } else {
      OpenedVersion(b, pid);
      var k: nat :| NamedAt(b, pid, p.path, p.get.snap, k);
      Earlier(r, pid);
      assert NamedAt(r, pid, p.path, p.get.snap, k);
    }
  }

  // ---------------------------------------------------------------- what a writer has seen, and shows

  /** The file the writer's stat found at its target. */
  function SeenOf(pc: Pc): Option<Inode> {
    match pc
    case Inspected(seen) => seen
    case Writing(seen, _, _) => seen
    case Owned(seen, _) => seen
    case Moded(seen, _) => seen
    case _ => None
  }

  /** It was a regular file, and there at a moment since the request began. */
  lemma {:induction false} TargetSeen(r: Run, pid: nat)
    requires IsRun(r) && pid in r.Last().procs && r.Last().procs[pid].Writer?
    requires SeenOf(r.Last().procs[pid].pc).Some?
    ensures SeenOf(r.Last().procs[pid].pc).value.kind == Regular
    ensures exists k: nat :: NamedAt(r, pid, r.Last().procs[pid].job.path, SeenOf(r.Last().procs[pid].pc).value, k)
    decreases |r.events|
  {
    hide Began, Happens;
    var n := |r.events| - 1;
    BeforeIsRun(r);
    var b, e, p := Before(r), r.events[n], r.Last().procs[pid];
    WriterCame(b.Last(), e, r.Last(), pid);
    Earlier(r, pid);
    if b.Last().procs[pid].pc == Ready {
      BeganAtStart(r, pid);
      assert NamedAt(r, pid, p.job.path, SeenOf(p.pc).value, n);
    } else {
      TargetSeen(b, pid);
      var k: nat :| NamedAt(b, pid, p.job.path, SeenOf(p.pc).value, k);
      assert NamedAt(r, pid, p.job.path, SeenOf(p.pc).value, k);
    }
  }

  /** A writer that has seen its target has just done so, or knew before. */
  lemma WriterCame(s: Sys, e: Event, s': Sys, pid: nat)
    requires Happens(s, e, s') && pid in s'.procs && s'.procs[pid].Writer? && SeenOf(s'.procs[pid].pc).Some?
    ensures !(e.Start? && e.pid == pid) && pid in s.procs && s.procs[pid].Writer?
            && s.procs[pid].job == s'.procs[pid].job
    ensures var pc, seen := s.procs[pid].pc, SeenOf(s'.procs[pid].pc);
            if pc == Ready then seen.value.kind == Regular && Lookup(s.fs, Name(s.procs[pid].job.path)) == seen
            else SeenOf(pc) == seen
  {
  }

  /** What others can see of an upload that is not finished: beside its target, and nowhere else, a file that its
      owner alone may open, with the bytes written so far. */
  lemma UnfinishedIsPrivate(r: Run, pid: nat)
    requires IsRun(r) && IsTame(r) && pid in r.Last().procs && r.Last().procs[pid].Writer?
    requires r.Last().procs[pid].pc.Writing?
    ensures var j, done, fs := r.Last().procs[pid].job, r.Last().procs[pid].pc.done, r.Last().fs;
            var temp := j.path + ".helios-tmp-" + Decimal(pid);
            && done <= |j.payload| && temp in fs.dir && fs.dir[temp] in fs.inodes
            && fs.inodes[fs.dir[temp]] == Inode(Regular, j.payload[..done], 6 * 8 * 8, j.euid, j.egid)
            && forall q :: q in fs.dir && fs.dir[q] == fs.dir[temp] ==> q == temp
  {
    hide IsRun, IsTame;
    InvHolds(r);
    assert ProcOk(r.Last(), pid, r.Last().procs[pid]);
    TempsAreWorkNames(r.Last().procs[pid].job);
  }

  // ---------------------------------------------------------------- read_file may not

  /** read_file saw one version by name, a regular file, and opened another, not earlier. */
  ghost predicate StattedThenNamed(r: Run, pid: nat, path: Text, seen: Inode, node: Inode)
    requires |r.states| == |r.events| + 1
  {
    exists a: nat, b: nat :: a <= b && seen.kind == Regular && NamedAt(r, pid, path, seen, a)
        && NamedAt(r, pid, path, node, b)
  }

  lemma {:induction false} SizeSeen(r: Run, pid: nat)
    requires IsRun(r) && pid in r.Last().procs && r.Last().procs[pid].Slurper? && r.Last().procs[pid].slurp.RStatted?
    ensures r.Last().procs[pid].slurp.seen.kind == Regular
    ensures exists a: nat :: NamedAt(r, pid, r.Last().procs[pid].path, r.Last().procs[pid].slurp.seen, a)
    decreases |r.events|
  {
    hide Began;
    var n := |r.events| - 1;
    BeforeIsRun(r);
    var b, e, p := Before(r), r.events[n], r.Last().procs[pid];
    if e.pid == pid && !e.Outside? {
      BeganAtStart(r, pid);
      Earlier(r, pid);
      assert NamedAt(r, pid, p.path, p.slurp.seen, n);
    } else {
      SizeSeen(b, pid);
      var a: nat :| NamedAt(b, pid, p.path, p.slurp.seen, a);
      Earlier(r, pid);
      assert NamedAt(r, pid, p.path, p.slurp.seen, a);
    }
  }

  /** A reader that has a version either had it before, or has just opened it. */
  lemma SlurperCame(s: Sys, e: Event, s': Sys, pid: nat)
    requires Happens(s, e, s') && pid in s'.procs && s'.procs[pid].Slurper?
    requires s'.procs[pid].slurp.RReading? || s'.procs[pid].slurp.RDone?
    ensures !(e.Start? && e.pid == pid)
    ensures pid in s.procs && s.procs[pid].Slurper? && s.procs[pid].path == s'.procs[pid].path
    ensures var r, r' := s.procs[pid].slurp, s'.procs[pid].slurp;
            if r.RStatted? then r.seen == r'.seen && Lookup(s.fs, Name(s.procs[pid].path)) == Some(r'.snap)
            else (r.RReading? || r.RDone?) && r.seen == r'.seen && r.snap == r'.snap
  {
  }

  lemma {:induction false} VersionSeen(r: Run, pid: nat)
    requires IsRun(r) && pid in r.Last().procs && r.Last().procs[pid].Slurper?
    requires r.Last().procs[pid].slurp.RReading? || r.Last().procs[pid].slurp.RDone?
    ensures var p := r.Last().procs[pid]; StattedThenNamed(r, pid, p.path, p.slurp.seen, p.slurp.snap)
    decreases |r.events|
  {
    hide Began, Happens, SlurpStep;
    var n := |r.events| - 1;
    BeforeIsRun(r);
    var before, p := Before(r), r.Last().procs[pid];
    SlurperCame(before.Last(), r.events[n], r.Last(), pid);
    Earlier(r, pid);
    if before.Last().procs[pid].slurp.RStatted? {
      SizeSeen(before, pid);
      BeganAtStart(r, pid);
      var a: nat :| NamedAt(before, pid, p.path, p.slurp.seen, a);
      assert NamedAt(r, pid, p.path, p.slurp.seen, a) && NamedAt(r, pid, p.path, p.slurp.snap, n);
    } else {
      VersionSeen(before, pid);
      var a: nat, b: nat :|
        a <= b && NamedAt(before, pid, p.path, p.slurp.seen, a) && NamedAt(before, pid, p.path, p.slurp.snap, b);
      assert NamedAt(r, pid, p.path, p.slurp.seen, a) && NamedAt(r, pid, p.path, p.slurp.snap, b);
    }
  }

  /** What read_file returns: a version its path named while it was being served, cut at the 32-bit size of the
      version the path named at that moment or an earlier one. It is the whole version exactly when that size was
      not the smaller. */
  lemma ReadIsCutSnapshot(r: Run, pid: nat)
    requires IsRun(r) && IsTame(r)
    requires pid in r.Last().procs && r.Last().procs[pid].Slurper? && r.Last().procs[pid].slurp.RDone?
    requires !IsWorkName(Name(r.Last().procs[pid].path))
    ensures var d := r.Last().procs[pid].slurp;
            && d.got == d.snap.data[..Min(SizeOf(d.seen), |d.snap.data|)]
            && (d.got == d.snap.data <==> SizeOf(d.seen) >= |d.snap.data|)
            && StattedThenNamed(r, pid, r.Last().procs[pid].path, d.seen, d.snap)
  {
    InvHolds(r);
    assert ProcOk(r.Last(), pid, r.Last().procs[pid]);
    VersionSeen(r, pid);
  }
}
