/** How far the guarantees under concurrency go: which names are safe, which targets, and the runs in which the
    others fail. */
module Limits {
  import opened Base
  import opened FileSystem
  import opened TempNames
  import opened WriterProtocol
  import opened ReaderProtocol
  import opened Concurrency

  // ---------------------------------------------------------------- building runs

  function Empty(): Run {
    Run([Sys(Fs(map[], map[], 0), map[])], [])
  }

  /** Nothing but requests so far, and none of them has committed. */
  ghost predicate Uncommitted(r: Run) {
    IsRun(r) && forall w: Path :: LastCommit(r, w) == None
  }

  lemma StaysUncommitted(r: Run, e: Event, s: Sys)
    requires Uncommitted(r) && Happens(r.Last(), e, s) && !Commits(r.Last(), e)
    ensures Uncommitted(Extended(r, e, s))
  {
    ExtendRun(r, e, s);
    assert Before(Extended(r, e, s)) == r;
  }

  /** `r'` goes on from `r` with these events. */
  predicate Prolongs(r: Run, r': Run, events: seq<Event>) {
    |r.states| > 0 && |r'.states| > 0 && r'.states[0] == r.states[0] && r'.events == r.events + events
  }

  /** Every writer of the run has this target, or an ordinary one, and nothing else happens to the files. */
  ghost predicate WritesOnly(r: Run, path: Text) {
    forall e :: e in r.events ==>
      !e.Outside? && (e.Start? && e.proc.Writer? ==> e.proc.job.path == path || Ordinary(e.proc.job.path))
  }

  lemma OrdinaryRunIsTame(r: Run, path: Text)
    requires Ordinary(path) && WritesOnly(r, path)
    ensures IsTame(r)
  {
    forall i | 0 <= i < |r.events| ensures Tame(r.events[i]) {
      assert r.events[i] in r.events;
    }
  }

  function OpenedState(r: Run, j: Job): Sys
    requires |r.states| > 0
  {
    var s := r.Last();
    Sys(Create(s.fs, Temp(j), j.euid, j.egid), s.procs[j.pid := Writer(j, Writing(None, s.fs.next, 0))])
  }

  function Opening(r: Run, j: Job): seq<Event>
    requires |r.states| > 0
  {
    [Start(j.pid, Writer(j, Ready)), Step(j.pid, Writer(j, Inspected(None))),
     Step(j.pid, Writer(j, Writing(None, r.Last().fs.next, 0)))]
  }

  /** A writer that finds no target and opens its temp. */
  lemma OpensTemp(r: Run, j: Job) returns (r': Run)
    requires IsRun(r) && Temp(j) !in r.Last().fs.dir && (j.pid in r.Last().procs ==> Over(r.Last().procs[j.pid]))
    ensures IsRun(r') && Prolongs(r, r', Opening(r, j)) && r'.Last() == OpenedState(r, j)
    ensures Uncommitted(r) ==> Uncommitted(r')
  {
    hide Uncommitted, Commits;
    var s, p := r.Last(), j.pid;
    BegunIsRun(r, p, Writer(j, Ready));
    var r1 := Begun(r, p, Writer(j, Ready));
    assert StatStep(j, WState(Ready, s.fs), WState(Inspected(None), s.fs));
    SteppedIsRun(r1, p, Writer(j, Inspected(None)), s.fs);
    var r2 := Stepped(r1, p, Writer(j, Inspected(None)), s.fs);
    var pc, fs := Writing(None, s.fs.next, 0), Create(s.fs, Temp(j), j.euid, j.egid);
    assert CreateStep(j, WState(Inspected(None), s.fs), WState(pc, fs));
    SteppedIsRun(r2, p, Writer(j, pc), fs);
    r' := Stepped(r2, p, Writer(j, pc), fs);
    if Uncommitted(r) {
      NoCommits(r, Start(p, Writer(j, Ready)), r1.Last());
      NoCommits(r1, Step(p, Writer(j, Inspected(None))), r2.Last());
      NoCommits(r2, Step(p, Writer(j, pc)), r'.Last());
    }
  }

  lemma NoCommits(r: Run, e: Event, s: Sys)
    requires Uncommitted(r) && Happens(r.Last(), e, s)
    requires e.Step? ==> e.proc.Writer? && !e.proc.pc.Ended?
    ensures Uncommitted(Extended(r, e, s))
  {
    StaysUncommitted(r, e, s);
  }

  lemma EmptyIsRun()
    ensures Uncommitted(Empty())
  {
  }

  /** An opened temp shows an empty file under its name, where no one has committed anything. */
  lemma OpenIsVisible(r: Run, j: Job)
    requires Uncommitted(r) && r.states[0].fs.dir == map[]
    requires Lookup(r.Last().fs, Temp(j)).Some?
    ensures !Atomic(r, Temp(j))
  {
  }

  // ---------------------------------------------------------------- which names

  /** A temp name of an ordinary target is the exception: one writer that opens it shows an empty file there. */
  lemma TempIsVisible(p: Text, pid: nat) returns (r: Run)
    requires Ordinary(p)
    ensures IsRun(r) && IsTame(r) && !Atomic(r, TempName(p, pid))
  {
    var j := Job(pid, p, "x", None, 0, 0);
    TempIsTarget(j);
    EmptyIsRun();
    r := OpensTemp(Empty(), j);
    OpenIsVisible(r, j);
  }

  /** Exactly which names every run of ordinary writers keeps atomic: all that none of them uses for its temp. */
  lemma AtomicExactlyOffTemps(w: Path)
    ensures (forall r: Run :: IsRun(r) && IsTame(r) ==> Atomic(r, w)) <==> !IsWorkName(w)
  {
    if IsWorkName(w) {
      var p: Text, pid: nat :| Ordinary(p) && w == TempName(p, pid);
      var r := TempIsVisible(p, pid);
    } else {
      forall r: Run | IsRun(r) && IsTame(r) ensures Atomic(r, w) {
        RunsAreAtomic(r, w);
      }
    }
  }

  // ---------------------------------------------------------------- which targets

  /** Each target of a writer of the run names its last commit, whole, or what it named at first. */
  ghost predicate TargetsAtomic(r: Run)
    requires IsRun(r)
  {
    forall e :: e in r.events && e.Start? && e.proc.Writer? ==> Atomic(r, Target(e.proc.job))
  }

  /** With a NUL in the path the temp the kernel opens is the target itself, and shows there unfinished. */
  lemma NulShowsTemp(path: Text) returns (r: Run)
    requires '\0' in path
    ensures IsRun(r) && WritesOnly(r, path) && !TargetsAtomic(r)
  {
    var j := Job(1, path, "x", None, 0, 0);
    TempIsTarget(j);
    EmptyIsRun();
    r := OpensTemp(Empty(), j);
    OpenIsVisible(r, j);
    assert Start(1, Writer(j, Ready)) in r.events;
  }

  /** A target that is an ordinary writer's temp shows what that writer has not finished. */
  lemma OtherShowsTemp(p: Text, pid: nat) returns (r: Run)
    requires Ordinary(p)
    ensures IsRun(r) && WritesOnly(r, TempName(p, pid)) && !TargetsAtomic(r)
  {
    var path := TempName(p, pid);
    var a, b := Job(pid, p, "x", None, 0, 0), Job(pid + 1, path, "y", None, 0, 0);
    TempIsTarget(a);
    NameOfTemp(p, pid);
    EmptyIsRun();
    var r1 := Begun(Empty(), b.pid, Writer(b, Ready));
    StaysUncommitted(Empty(), Start(b.pid, Writer(b, Ready)), r1.Last());
    r := OpensTemp(r1, a);
    OpenIsVisible(r, a);
    assert Start(b.pid, Writer(b, Ready)) in r.events && Target(b) == Temp(a);
  }

  /** Exactly which targets are written atomically beside any number of writers of ordinary targets: the ordinary
      ones, without a NUL and not the temp of another. */
  lemma TargetsExactly(path: Text)
    ensures (forall r: Run :: IsRun(r) && WritesOnly(r, path) ==> TargetsAtomic(r)) <==> Ordinary(path)
  {
    hide TargetsAtomic, WritesOnly;
    if Ordinary(path) {
      forall r: Run | IsRun(r) && WritesOnly(r, path) ensures TargetsAtomic(r) {
        OrdinaryTargets(r, path);
      }
    } else if '\0' in path {
      var r := NulShowsTemp(path);
    } else {
      OrdinaryIsNoWorkName(path);
      var p: Text, pid: nat :| Ordinary(p) && path == TempName(p, pid);
      var r := OtherShowsTemp(p, pid);
    }
  }

  lemma OrdinaryTargets(r: Run, path: Text)
    requires Ordinary(path) && IsRun(r) && WritesOnly(r, path)
    ensures TargetsAtomic(r)
  {
    hide Atomic, IsRun, Ordinary;
    OrdinaryRunIsTame(r, path);
    forall e | e in r.events && e.Start? && e.proc.Writer? ensures Atomic(r, Target(e.proc.job)) {
      TempsAreWorkNames(e.proc.job);
      OrdinaryIsNoWorkName(e.proc.job.path);
      RunsAreAtomic(r, Target(e.proc.job));
    }
  }

  // ---------------------------------------------------------------- one overwrite from start to end

  function SoloFs(j: Job, fs: Fs, seen: Option<Inode>): (all: seq<Fs>)
    ensures |all| == 7
  {
    var full := WithTemp(j, fs, TempInode(j, j.payload));
    [fs, fs, WithTemp(j, fs, TempInode(j, [])), full,
     if KeepsOwner(j, seen) then Chown(full, fs.next, seen.value.uid, seen.value.gid) else full,
     WithTemp(j, fs, FinalInode(j, seen)), Installed(j, fs, seen)]
  }

  function SoloPc(j: Job, fs: Fs, seen: Option<Inode>): (all: seq<Pc>)
    ensures |all| == 7
  {
    [Ready, Inspected(seen), Writing(seen, fs.next, 0), Writing(seen, fs.next, |j.payload|),
     Owned(seen, fs.next), Moded(seen, fs.next), Ended(true)]
  }

  function Solo(j: Job, fs: Fs, seen: Option<Inode>, i: nat): WState
    requires i < 7
  {
    WState(SoloPc(j, fs, seen)[i], SoloFs(j, fs, seen)[i])
  }

  /** What a lone write needs. */
  predicate Free(j: Job, fs: Fs, seen: Option<Inode>) {
    && Valid(fs) && Saw(j, fs, seen) && '\0' !in j.path && Temp(j) !in fs.dir && j.payload != []
    && (Lookup(fs, Target(j)).Some? ==> Lookup(fs, Target(j)).value.kind != Directory)
  }

  lemma SoloOpen(j: Job, fs: Fs, seen: Option<Inode>)
    requires Free(j, fs, seen)
    ensures StatStep(j, Solo(j, fs, seen, 0), Solo(j, fs, seen, 1))
    ensures CreateStep(j, Solo(j, fs, seen, 1), Solo(j, fs, seen, 2))
  {
  }

  lemma SoloWrite(j: Job, fs: Fs, seen: Option<Inode>)
    requires Free(j, fs, seen)
    ensures WriteStep(j, Solo(j, fs, seen, 2), Solo(j, fs, seen, 3))
  {
    assert j.payload[0..|j.payload|] == j.payload && [] + j.payload == j.payload;
  }

  lemma SoloSettle(j: Job, fs: Fs, seen: Option<Inode>)
    requires Free(j, fs, seen)
    ensures ChownStep(j, Solo(j, fs, seen, 3), Solo(j, fs, seen, 4))
    ensures ChmodStep(j, Solo(j, fs, seen, 4), Solo(j, fs, seen, 5))
  {
  }

  lemma SoloRename(j: Job, fs: Fs, seen: Option<Inode>)
    requires Free(j, fs, seen)
    ensures RenameStep(j, Solo(j, fs, seen, 5), Solo(j, fs, seen, 6))
  {
    TempIsTarget(j);
    assert Solo(j, fs, seen, 6).fs == Rename(Solo(j, fs, seen, 5).fs, Temp(j), Target(j));
  }

  lemma SoloStep(j: Job, fs: Fs, seen: Option<Inode>, i: nat)
    requires Free(j, fs, seen) && i < 6
    ensures WriterStep(j, Solo(j, fs, seen, i), Solo(j, fs, seen, i + 1))
  {
    hide Solo, Free, StatStep, CreateStep, WriteStep, ChownStep, ChmodStep, RenameStep, FailStep, UnlinkStep;
    if i < 2 {
      SoloOpen(j, fs, seen);
    } else if i == 2 {
      SoloWrite(j, fs, seen);
    } else if i < 5 {
      SoloSettle(j, fs, seen);
    } else {
      SoloRename(j, fs, seen);
    }
  }

  /** No write of this pid has ended in success yet. */
  predicate NoSuccess(r: Run, pid: nat) {
    forall e :: e in r.events ==> !(e.Step? && e.pid == pid && e.proc.Writer? && e.proc.pc == Ended(true))
  }

  /** From any point of a run, a free pid can carry one write up to its `n`-th step, alone. */
  lemma {:induction false} WriterRunsTo(r: Run, j: Job, seen: Option<Inode>, n: nat) returns (r': Run)
    requires IsRun(r) && (j.pid in r.Last().procs ==> Over(r.Last().procs[j.pid])) && n <= 6
    requires Free(j, r.Last().fs, seen)
    ensures IsRun(r') && r'.states[0] == r.states[0]
    ensures var s := Solo(j, r.Last().fs, seen, n); r'.Last() == Sys(s.fs, r.Last().procs[j.pid := Writer(j, s.pc)])
    ensures forall q :: WritesOnly(r, q) && (j.path == q || Ordinary(j.path)) ==> WritesOnly(r', q)
    ensures forall q: nat :: NoSuccess(r, q) && (n < 6 || q != j.pid) ==> NoSuccess(r', q)
    decreases n
  {
    hide WriterStep, Happens, Free, Ordinary, IsRun, SoloFs;
    if n == 0 {
      BegunIsRun(r, j.pid, Writer(j, Ready));
      r' := Begun(r, j.pid, Writer(j, Ready));
      StartsAt(r, r', j, seen);
    } else {
      var b := WriterRunsTo(r, j, seen, n - 1);
      var s := Solo(j, r.Last().fs, seen, n);
      SoloStep(j, r.Last().fs, seen, n - 1);
      SteppedIsRun(b, j.pid, Writer(j, s.pc), s.fs);
      r' := Stepped(b, j.pid, Writer(j, s.pc), s.fs);
      StepsTo(b, r', j, s);
    }
  }

  lemma StartsAt(r: Run, r': Run, j: Job, seen: Option<Inode>)
    requires IsRun(r) && r' == Begun(r, j.pid, Writer(j, Ready))
    ensures r'.states[0] == r.states[0]
    ensures var s := Solo(j, r.Last().fs, seen, 0); r'.Last() == Sys(s.fs, r.Last().procs[j.pid := Writer(j, s.pc)])
    ensures forall q :: WritesOnly(r, q) && (j.path == q || Ordinary(j.path)) ==> WritesOnly(r', q)
    ensures forall q: nat :: NoSuccess(r, q) ==> NoSuccess(r', q)
  {
    hide Ordinary;
  }

  lemma StepsTo(r: Run, r': Run, j: Job, s: WState)
    requires IsRun(r) && r' == Stepped(r, j.pid, Writer(j, s.pc), s.fs)
    ensures r'.states[0] == r.states[0] && r'.Last() == Sys(s.fs, r.Last().procs[j.pid := Writer(j, s.pc)])
    ensures forall q :: WritesOnly(r, q) ==> WritesOnly(r', q)
    ensures forall q: nat :: NoSuccess(r, q) && (s.pc != Ended(true) || q != j.pid) ==> NoSuccess(r', q)
  {
    hide Ordinary;
  }

  // ---------------------------------------------------------------- a stolen temp

  /** A success at the very end that leaves another payload at the target is no commit, and there was none before. */
  lemma NeverCommitted(before: Run, r: Run, j: Job, theirs: Text)
    requires NoSuccess(before, j.pid) && |r.states| == |r.events| + 1 && |r.events| == |before.events| + 1
    requires r.events[..|before.events|] == before.events
    requires Lookup(r.Last().fs, Target(j)).Some? && Lookup(r.Last().fs, Target(j)).value.data == theirs != j.payload
    ensures forall k: nat :: !CommittedAt(r, j.pid, j, k)
  {
    forall k: nat ensures !CommittedAt(r, j.pid, j, k) {
      if k < |before.events| {
        assert r.events[k] in before.events;
      }
    }
  }

  /** What goes wrong for the ordinary writer when another renames onto its temp: it reports success, and its target
      has the other's payload. */
  lemma TempCanBeStolen(p: Text, pid: nat, mine: Text, theirs: Text) returns (r: Run)
    requires Ordinary(p) && mine != [] && theirs != [] && mine != theirs
    ensures IsRun(r) && WritesOnly(r, TempName(p, pid)) && pid in r.Last().procs
    ensures var me := r.Last().procs[pid];
            && me.Writer? && me.pc == Ended(true) && me.job.path == p && me.job.payload == mine
            && Lookup(r.Last().fs, p).Some? && Lookup(r.Last().fs, p).value.data == theirs
            && forall k: nat :: !CommittedAt(r, pid, me.job, k)
  {
    hide Happens, WriterStep, Ordinary, WritesOnly, Commits, NoSuccess, CommittedAt, Free, Solo, IsRun, Lookup;
    var a, b := Job(pid, p, mine, None, 0, 0), Job(pid + 1, TempName(p, pid), theirs, None, 0, 0);
    TempsAreWorkNames(a);
    EmptyIsRun();
    NothingWritten(b.path, pid);
    FreeInEmpty(a);
    var r1 := WriterRunsTo(Empty(), a, None, 5);
    var seen := Lookup(r1.Last().fs, Temp(a));
    FreeOnTemp(a, b);
    var r2 := WriterRunsTo(r1, b, seen, 6);
    r := RenamesWhatIsThere(r2, a, FinalInode(b, seen), b.path);
    NeverCommitted(r2, r, a, theirs);
  }

  lemma FreeInEmpty(j: Job)
    requires '\0' !in j.path && j.payload != []
    ensures Free(j, Empty().Last().fs, None) && Solo(j, Empty().Last().fs, None, 5).pc == Moded(None, 0)
  {
  }

  /** The other writer finds the temp, complete, as its target, and replaces it. */
  lemma FreeOnTemp(a: Job, b: Job)
    requires Ordinary(a.path) && b.path == TempName(a.path, a.pid) && b.payload != []
    ensures var fs := Solo(a, Empty().Last().fs, None, 5).fs;
            var seen := Lookup(fs, Temp(a));
            && Free(b, fs, seen) && Solo(b, fs, seen, 6).pc == Ended(true)
            && Lookup(Solo(b, fs, seen, 6).fs, Temp(a)) == Some(FinalInode(b, seen))
            && Target(a) !in Solo(b, fs, seen, 6).fs.dir
  {
    hide Ordinary;
    TempsAreWorkNames(a);
    NameOfTemp(a.path, a.pid);
    TempIsTarget(b);
    var fs := Solo(a, Empty().Last().fs, None, 5).fs;
    assert fs == WithTemp(a, Empty().Last().fs, FinalInode(a, None));
    SoloEnd(b, fs, Lookup(fs, Temp(a)));
  }

  /** rename() moves whatever the temp's name has come to mean. */
  lemma RenamesWhatIsThere(r: Run, j: Job, node: Inode, path: Text) returns (r': Run)
    requires IsRun(r) && j.pid in r.Last().procs && r.Last().procs[j.pid].Writer? && r.Last().procs[j.pid].job == j
    requires r.Last().procs[j.pid].pc.Moded? && Target(j) !in r.Last().fs.dir
    requires Lookup(r.Last().fs, Temp(j)) == Some(node)
    ensures IsRun(r') && r'.events == r.events + [Step(j.pid, Writer(j, Ended(true)))]
    ensures |r'.states| == |r'.events| + 1
    ensures r'.Last().procs == r.Last().procs[j.pid := Writer(j, Ended(true))]
    ensures Lookup(r'.Last().fs, Target(j)) == Some(node)
    ensures WritesOnly(r, path) ==> WritesOnly(r', path)
  {
    hide Happens, Ordinary;
    var fs, pc := r.Last().fs, r.Last().procs[j.pid].pc;
    assert RenameStep(j, WState(pc, fs), WState(Ended(true), Rename(fs, Temp(j), Target(j))));
    SteppedIsRun(r, j.pid, Writer(j, Ended(true)), Rename(fs, Temp(j), Target(j)));
    r' := Stepped(r, j.pid, Writer(j, Ended(true)), Rename(fs, Temp(j), Target(j)));
  }

  lemma NothingWritten(path: Text, pid: nat)
    ensures WritesOnly(Empty(), path) && NoSuccess(Empty(), pid)
  {
  }


  // ---------------------------------------------------------------- a torn read

  lemma SlurperGoes(r: Run, pid: nat, path: Text, d: Slurp) returns (r': Run)
    requires IsRun(r)
    requires if pid in r.Last().procs then Moves(r.Last().procs[pid], r.Last().fs, Slurper(path, d), r.Last().fs)
             else d == RReady
    ensures IsRun(r') && r'.states[0] == r.states[0]
    ensures r'.Last() == Sys(r.Last().fs, r.Last().procs[pid := Slurper(path, d)])
    ensures WritesOnly(r, path) ==> WritesOnly(r', path)
  {
    hide Ordinary;
    var p := Slurper(path, d);
    if pid in r.Last().procs {
      SteppedIsRun(r, pid, p, r.Last().fs);
      r' := Stepped(r, pid, p, r.Last().fs);
    } else {
      BegunIsRun(r, pid, p);
      r' := Begun(r, pid, p);
    }
  }

  /** read_file stats before it opens, so a write in between can make it return neither version. */
  lemma ReadCanTear(path: Text, v1: Text, v2: Text, reader: nat, writer: nat) returns (r: Run)
    requires Ordinary(path) && reader != writer
    requires 0 < |v1| < |v2| && |v1| < WORD32 && v1 != v2[..|v1|]
    ensures IsRun(r) && IsTame(r) && reader in r.Last().procs
    ensures r.Last().procs[reader].Slurper? && r.Last().procs[reader].slurp.RDone?
    ensures Lookup(r.states[0].fs, path).Some? && Lookup(r.states[0].fs, path).value.data == v1
    ensures Lookup(r.Last().fs, path).Some? && Lookup(r.Last().fs, path).value.data == v2
    ensures r.Last().procs[reader].slurp.got != v1 && r.Last().procs[reader].slurp.got != v2
  {
    hide Happens, Ordinary, WritesOnly, NoSuccess, Solo, IsRun, IsTame;
    var node := Inode(Regular, v1, 420, 0, 0);
    var j := Job(writer, path, v2, None, 0, 0);
    TempsAreWorkNames(j);
    var r0 := OneFile(path, node);
    r := SlurperGoes(r0, reader, path, RReady);
    r := SlurperGoes(r, reader, path, RStatted(node));
    r := WriterRunsTo(r, j, Some(node), 6);
    SoloEnd(j, r0.Last().fs, Some(node));
    r := FinishTorn(r, path, reader, node, FinalInode(j, Some(node)));
    OrdinaryRunIsTame(r, path);
  }

  lemma OneFile(path: Text, node: Inode) returns (r: Run)
    requires '\0' !in path
    ensures IsRun(r) && WritesOnly(r, path) && r.states == [Sys(Fs(map[path := 0], map[0 := node], 1), map[])]
  {
    r := Run([Sys(Fs(map[path := 0], map[0 := node], 1), map[])], []);
  }

  lemma SoloEnd(j: Job, fs: Fs, seen: Option<Inode>)
    ensures Solo(j, fs, seen, 6) == WState(Ended(true), Installed(j, fs, seen))
    ensures Lookup(Solo(j, fs, seen, 6).fs, Target(j)) == Some(FinalInode(j, seen))
  {
  }

  /** A reader that has its size already, and opens a longer file. */
  lemma FinishTorn(r: Run, path: Text, reader: nat, seen: Inode, node: Inode) returns (r': Run)
    requires IsRun(r) && reader in r.Last().procs && r.Last().procs[reader] == Slurper(path, RStatted(seen))
    requires Lookup(r.Last().fs, Name(path)) == Some(node) && 0 < SizeOf(seen) < |node.data|
    ensures IsRun(r') && r'.states[0] == r.states[0] && r'.Last().fs == r.Last().fs
    ensures r'.Last().procs == r.Last().procs[reader := Slurper(path, RDone(seen, node, node.data[..SizeOf(seen)]))]
    ensures WritesOnly(r, path) ==> WritesOnly(r', path)
  {
    hide Happens, WritesOnly;
    var ino, size := r.Last().fs.dir[Name(path)], SizeOf(seen);
    r' := SlurperGoes(r, reader, path, RReading(seen, ino, node, []));
    assert [] + node.data[0..size] == node.data[..size];
    r' := SlurperGoes(r', reader, path, RReading(seen, ino, node, node.data[..size]));
    r' := SlurperGoes(r', reader, path, RDone(seen, node, node.data[..size]));
  }
}
