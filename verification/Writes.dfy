/** write_file and put_file, call by call, among whatever else runs: every call is a step of the writer protocol in
    the history of all processes. */
module Writes {
  import opened Base
  import opened FileSystem
  import opened TempNames
  import opened WriterProtocol
  import opened Concurrency
  import opened Framing
  import opened Connection
  import opened Kernel
  import opened Requests

  // ---------------------------------------------------------------- a write in progress

  /** How a write went: what stat saw, and whether the write was installed. */
  datatype WriterLog = WriterLog(seen: Option<Inode>, ok: bool)

  /** The history `h`, which goes on from `h0`, has the process at `pc` of this write, and the files are as it says;
      if nothing else touches them, they are what the write alone has made of the first ones. */
  ghost predicate WritesAt(h0: Run, h: Run, alone: bool, j: Job, pc: Pc, fs: Fs) {
    && ServesAt(h0, h, j.pid, Writer(j, pc), fs)
    && (pc.Writing? || pc.Owned? || pc.Moded? || pc.Failing? ==> pc.ino in fs.inodes)
    && (alone ==> Reached(j, h0.Last().fs, WState(pc, fs)))
  }

  /** The calls made were steps of the writer protocol to its end, among the steps of whatever else ran. A success
      is the last of them, the commit; a failure was refused or undone, or never began. Alone, all or nothing. */
  ghost predicate Wrought(h0: Run, h: Run, alone: bool, j: Job, w: WriterLog) {
    && Extends(h0, h) && IsRun(h)
    && (if w.ok then CommitsLast(h0, h, j, w.seen)
        else h == h0 || (Doing(h, j.pid) == Some(Writer(j, Ended(false))) && Began(h, j.pid) == |h0.events| + 1))
    && (alone ==> if w.ok then Saw(j, h0.Last().fs, w.seen) && h.Last().fs == Installed(j, h0.Last().fs, w.seen)
                  else Untouched(h0.Last().fs, h.Last().fs))
  }

  ghost predicate CommitsLast(h0: Run, h: Run, j: Job, seen: Option<Inode>)
    requires Extends(h0, h)
  {
    && |h.events| > |h0.events| && Doing(h, j.pid) == Some(Writer(j, Ended(true))) && Began(h, j.pid) == |h0.events| + 1
    && var n := |h.events| - 1;
       && h.events[n].pid == j.pid && Commits(h.states[n], h.events[n])
       && CommitOf(h.states[n], h.events[n]) == Commit(j, seen)
  }

  /** The response tells the truth about the write. */
  predicate Reports(r: Response, id: real, j: Job, w: WriterLog) {
    if w.ok then r == Wrote(id, j.path, |j.payload|, FinalMode(j.mode, w.seen), w.seen.None?)
    else r.Failed? && r.id == id
  }

  /** The write begins. */
  lemma Starts(h0: Run, alone: bool, j: Job)
    requires IsRun(h0) && IsIdle(h0, j.pid) && Valid(h0.Last().fs)
    ensures WritesAt(h0, Begun(h0, j.pid, Writer(j, Ready)), alone, j, Ready, h0.Last().fs)
  {
    Begins(h0, j.pid, Writer(j, Ready));
  }

  /** Others run, and then the write goes on by a step. */
  lemma Goes(h0: Run, h: Run, mid: Run, alone: bool, j: Job, pc: Pc, pc': Pc, fs': Fs)
    requires WritesAt(h0, h, alone, j, pc, h.Last().fs) && Interlude(h, mid, j.pid, alone)
    requires WriterStep(j, WState(pc, mid.Last().fs), WState(pc', fs')) && Valid(fs') && Valid(h0.Last().fs)
    ensures Moves(Writer(j, pc), mid.Last().fs, Writer(j, pc'), fs')
    ensures WritesAt(h0, Stepped(mid, j.pid, Writer(j, pc'), fs'), alone, j, pc', fs')
    ensures IsRun(mid) && Doing(mid, j.pid) == Some(Writer(j, pc))
  {
    hide Moves, IsRun, Valid, Reached, Began;
    assert Moves(Writer(j, pc), mid.Last().fs, Writer(j, pc'), fs') by {
      StepIsMove(j, WState(pc, mid.Last().fs), WState(pc', fs'));
    }
    GoesOn(h0, h, mid, j.pid, alone, Writer(j, pc), Writer(j, pc'), fs');
    StepKeepsInode(j, WState(pc, mid.Last().fs), WState(pc', fs'));
    if alone {
      ReachedStep(j, h0.Last().fs, WState(pc, mid.Last().fs), WState(pc', fs'));
    }
  }

  lemma StepIsMove(j: Job, s: WState, s': WState)
    requires WriterStep(j, s, s')
    ensures Moves(Writer(j, s.pc), s.fs, Writer(j, s'.pc), s'.fs)
  {
  }

  lemma StepKeepsInode(j: Job, s: WState, s': WState)
    requires WriterStep(j, s, s')
    requires s.pc.Writing? || s.pc.Owned? || s.pc.Moded? || s.pc.Failing? ==> s.pc.ino in s.fs.inodes
    ensures s'.pc.Writing? || s'.pc.Owned? || s'.pc.Moded? || s'.pc.Failing? ==> s'.pc.ino in s'.fs.inodes
  {
  }

  /** A write that has failed for good. */
  lemma GivesUp(h0: Run, h: Run, alone: bool, j: Job, fs: Fs, seen: Option<Inode>)
    requires WritesAt(h0, h, alone, j, Ended(false), fs)
    ensures Wrought(h0, h, alone, j, WriterLog(seen, false))
  {
  }

  /** A write that never began. */
  lemma Refused(h: Run, alone: bool, j: Job)
    requires IsRun(h)
    ensures Wrought(h, h, alone, j, WriterLog(None, false))
  {
  }

  // ---------------------------------------------------------------- loops over the body

  /** Consume and discard `total` raw bytes, a buffer at a time. */
  method StreamDrain(conn: Socket, total: nat) returns (ok: bool)
    modifies conn`input, conn`broken
    ensures old(conn.broken) ==> conn.broken
    ensures ok ==> conn.broken == old(conn.broken) && total <= |old(conn.input)|
                   && conn.input == old(conn.input)[total..]
    ensures !ok && !conn.broken ==> total > |old(conn.input)|
  {
    var remaining := total;
    while remaining > 0
      invariant 0 <= remaining <= total && conn.broken == old(conn.broken)
      invariant total - remaining <= |old(conn.input)| && conn.input == old(conn.input)[total - remaining..]
    {
      var chunk := Min(remaining, CHUNK);
      var data := conn.RecvAtLeast(chunk);
      if data.None? {
        return false;
      }
      remaining := remaining - chunk;
    }
    assert total - remaining == total;
    return true;
  }

  /** Keep the stream framed, then report. */
  method DrainAndFail(conn: Socket, total: nat, resp: Response) returns (rc: Rc)
    requires conn.Tracks()
    modifies conn
    ensures conn.Tracks() && (old(conn.broken) ==> conn.broken)
    ensures rc == Continue || rc == Threw
    ensures rc == Continue ==> BodyConsumed(old(conn.input), conn.input, total) && conn.broken == old(conn.broken)
                               && conn.replies == old(conn.replies) + [Reply(resp, [])]
    ensures rc == Threw ==> (conn.broken || total > |old(conn.input)|) && conn.replies == old(conn.replies)
  {
    var drained := StreamDrain(conn, total);
    if !drained {
      return Threw;
    }
    var sent := conn.SendLine(resp);
    rc := if sent then Continue else Threw;
  }

  /** Write `data`, the payload's next bytes, however few each write() takes. */
  method WriteAll(k: Process, ino: nat, data: Text, ghost j: Job, ghost h0: Run, ghost seen: Option<Inode>,
                  ghost done0: nat)
    returns (ok: bool, ghost done: nat)
    requires Valid(h0.Last().fs) && j.pid == k.pid
    requires WritesAt(h0, k.history, k.alone, j, Writing(seen, ino, done0), k.fs)
    requires done0 + |data| <= |j.payload| && data == j.payload[done0..done0 + |data|]
    modifies k`fs, k`calls, k`faults, k`history
    ensures WritesAt(h0, k.history, k.alone, j, Writing(seen, ino, done), k.fs) && done <= |j.payload|
    ensures ok ==> done == done0 + |data|
    ensures k.faults >= old(k.faults) && (!ok ==> k.faults > old(k.faults))
    ensures MadeAs(old(k.calls), k.calls, k.creds)
  {
    hide WritesAt, Interlude, IsRun, Valid;
    var w := 0;
    done := done0;
    while w < |data|
      invariant 0 <= w <= |data| && done == done0 + w && k.faults >= old(k.faults)
      invariant WritesAt(h0, k.history, k.alone, j, Writing(seen, ino, done), k.fs)
      invariant MadeAs(old(k.calls), k.calls, k.creds)
      decreases |data| - w
    {
      ghost var before := k.history;
      InStepOf(k, h0, j, Writing(seen, ino, done));
      var n := k.Write(ino, data[w..]);
      if n < 0 {
        Waits(h0, before, k.history, k.alone, j, Writing(seen, ino, done));
        return false, done;
      }
      assert data[w..][..n] == j.payload[done..done + n];
      assert WriteStep(j, WState(Writing(seen, ino, done), k.history.Last().fs),
                       WState(Writing(seen, ino, done + n), k.fs));
      Advance(k, h0, before, j, Writing(seen, ino, done), Writing(seen, ino, done + n));
      w := w + n;
      done := done + n;
    }
    return true, done;
  }

  lemma InStepOf(k: Process, h0: Run, j: Job, pc: Pc)
    requires WritesAt(h0, k.history, k.alone, j, pc, k.fs) && j.pid == k.pid
    ensures k.InStep() && (pc.Ended? ==> IsIdle(k.history, k.pid))
    ensures pc.Writing? || pc.Owned? || pc.Moded? || pc.Failing? ==> pc.ino in k.fs.inodes
  {
  }

  /** Others run, and the write has not gone on. */
  lemma Waits(h0: Run, h: Run, mid: Run, alone: bool, j: Job, pc: Pc)
    requires WritesAt(h0, h, alone, j, pc, h.Last().fs) && Interlude(h, mid, j.pid, alone)
    ensures WritesAt(h0, mid, alone, j, pc, mid.Last().fs)
  {
    Rests(h0, h, mid, j.pid, alone, Writer(j, pc));
  }

  /** Record the step the process has just made. */
  ghost method Advance(k: Process, h0: Run, before: Run, j: Job, pc: Pc, pc': Pc)
    requires WritesAt(h0, before, k.alone, j, pc, before.Last().fs) && Interlude(before, k.history, k.pid, k.alone)
    requires WriterStep(j, WState(pc, k.history.Last().fs), WState(pc', k.fs))
    requires Valid(k.fs) && Valid(h0.Last().fs) && j.pid == k.pid
    modifies k`history
    ensures WritesAt(h0, k.history, k.alone, j, pc', k.fs)
    ensures k.history == Stepped(old(k.history), k.pid, Writer(j, pc'), k.fs)
  {
    hide WritesAt, WriterStep, Interlude, IsRun, Valid, Moves;
    Goes(h0, before, k.history, k.alone, j, pc, pc', k.fs);
    k.Record(Writer(j, pc'));
  }

  /** close() and unlink() of the temp after an error. */
  method Abandon(k: Process, tmp: Text, ghost j: Job, ghost h0: Run, ghost pc: Pc)
    requires Valid(h0.Last().fs) && WritesAt(h0, k.history, k.alone, j, pc, k.fs)
    requires Name(tmp) == Temp(j) && j.pid == k.pid && (pc.Writing? || pc.Moded?)
    modifies k`fs, k`calls, k`history
    ensures WritesAt(h0, k.history, k.alone, j, Ended(false), k.fs)
    ensures k.calls == old(k.calls) + [k.creds]
  {
    hide WritesAt, Interlude, IsRun, Valid;
    InStepOf(k, h0, j, pc);
    StandsStill(k.history, k.pid, k.alone);
    assert FailStep(j, WState(pc, k.fs), WState(Failing(pc.ino), k.fs));
    Advance(k, h0, k.history, j, pc, Failing(pc.ino));
    ghost var before := k.history;
    InStepOf(k, h0, j, Failing(pc.ino));
    k.UnlinkName(tmp);
    assert UnlinkStep(j, WState(Failing(pc.ino), k.history.Last().fs), WState(Ended(false), k.fs));
    Advance(k, h0, before, j, Failing(pc.ino), Ended(false));
  }

  /** Owner, then mode: chown would clear bits chmod had set. */
  method Settle(k: Process, ino: nat, seen: Option<Inode>, mode: Option<int>, ghost j: Job, ghost h0: Run)
    returns (finalMode: nat)
    requires Valid(h0.Last().fs) && j.pid == k.pid && j.mode == mode && j.euid == k.creds.euid
    requires WritesAt(h0, k.history, k.alone, j, Writing(seen, ino, |j.payload|), k.fs)
    modifies k`fs, k`calls, k`history
    ensures WritesAt(h0, k.history, k.alone, j, Moded(seen, ino), k.fs)
    ensures finalMode == FinalMode(mode, seen)
    ensures mode.Some? ==> finalMode == mode.value % 4096
    ensures mode.None? ==> finalMode == if seen.Some? then seen.value.mode % 4096 else 420
    ensures ino in k.fs.inodes && k.fs.inodes[ino].mode == finalMode
    ensures MadeAs(old(k.calls), k.calls, k.creds)
  {
    hide WritesAt, Interlude, IsRun, Valid;
    finalMode := if mode.Some? then PermBits(mode.value) else if seen.Some? then PermBits(seen.value.mode) else 420;
    ghost var before, pc := k.history, Writing(seen, ino, |j.payload|);
    InStepOf(k, h0, j, pc);
    StandsStill(k.history, k.pid, k.alone);
    if seen.Some? && k.creds.euid == 0 {
      k.Fchown(ino, seen.value.uid, seen.value.gid);
    }
    assert ChownStep(j, WState(pc, k.history.Last().fs), WState(Owned(seen, ino), k.fs));
    Advance(k, h0, before, j, pc, Owned(seen, ino));
    before := k.history;
    InStepOf(k, h0, j, Owned(seen, ino));
    k.Fchmod(ino, finalMode);
    assert ChmodStep(j, WState(Owned(seen, ino), k.history.Last().fs), WState(Moded(seen, ino), k.fs));
    Advance(k, h0, before, j, Owned(seen, ino), Moded(seen, ino));
  }

  predicate NoDirectory(j: Job, fs: Fs) {
    Lookup(fs, Target(j)).Some? ==> Lookup(fs, Target(j)).value.kind != Directory
  }

  /** Alone, nothing but a directory at the target stands in the way of the rename. */
  lemma MayInstall(j: Job, fs0: Fs, seen: Option<Inode>, ino: nat, fs: Fs)
    requires Valid(fs0) && Reached(j, fs0, WState(Moded(seen, ino), fs))
    requires NoDirectory(j, fs0)
    ensures MayRename(fs, Temp(j), Target(j))
  {
  }

  /** Attributes first, then the rename that makes the file visible. */
  method Install(k: Process, path: Text, tmp: Text, ino: nat, seen: Option<Inode>, mode: Option<int>, ghost j: Job,
                 ghost h0: Run)
    returns (ok: bool, finalMode: nat, ghost w: WriterLog)
    requires Valid(h0.Last().fs) && j.pid == k.pid && j.mode == mode && j.euid == k.creds.euid
    requires Name(path) == Target(j) && Name(tmp) == Temp(j)
    requires WritesAt(h0, k.history, k.alone, j, Writing(seen, ino, |j.payload|), k.fs)
    modifies k`fs, k`calls, k`faults, k`history
    ensures w.ok == ok && Wrought(h0, k.history, k.alone, j, w) && k.InStep() && IsIdle(k.history, k.pid)
    ensures finalMode == FinalMode(mode, seen) && w.seen == seen
    ensures k.faults >= old(k.faults)
    ensures k.alone && !ok && NoDirectory(j, h0.Last().fs) ==> k.faults > old(k.faults)
    ensures MadeAs(old(k.calls), k.calls, k.creds)
  {
    hide Interlude, Reached, IsRun, Valid, Commits, Wrought, WritesAt, Began, NoDirectory;
    finalMode := Settle(k, ino, seen, mode, j, h0);
    ghost var before, moded := k.history, Moded(seen, ino);
    InStepOf(k, h0, j, moded);
    ok := k.RenameTo(tmp, path);
    w := WriterLog(seen, ok);
    if ok {
      ghost var mid := k.history;
      Waits(h0, before, mid, k.alone, j, moded);
      assert RenameStep(j, WState(moded, mid.Last().fs), WState(Ended(true), k.fs));
      Advance(k, h0, before, j, moded, Ended(true));
      Committed(h0, mid, k.history, k.alone, j, seen, ino, k.fs);
    } else {
      Waits(h0, before, k.history, k.alone, j, moded);
      if k.alone && NoDirectory(j, h0.Last().fs) {
        AloneReached(h0, k.history, j, moded, k.fs);
        MayInstall(j, h0.Last().fs, seen, ino, k.fs);
      }
      Abandon(k, tmp, j, h0, moded);
      GivesUp(h0, k.history, k.alone, j, k.fs, seen);
    }
    InStepOf(k, h0, j, Ended(ok));
  }

  lemma AloneReached(h0: Run, h: Run, j: Job, pc: Pc, fs: Fs)
    requires WritesAt(h0, h, true, j, pc, fs)
    ensures Reached(j, h0.Last().fs, WState(pc, fs))
  {
  }

  /** The rename was the commit. */
  lemma Committed(h0: Run, mid: Run, h: Run, alone: bool, j: Job, seen: Option<Inode>, ino: nat, fs: Fs)
    requires h == Stepped(mid, j.pid, Writer(j, Ended(true)), fs) && WritesAt(h0, h, alone, j, Ended(true), fs)
    requires WritesAt(h0, mid, alone, j, Moded(seen, ino), mid.Last().fs)
    requires Temp(j) in mid.Last().fs.dir && fs == Rename(mid.Last().fs, Temp(j), Target(j))
    ensures Wrought(h0, h, alone, j, WriterLog(seen, true))
  {
    hide Began, IsRun, Valid;
    var n := |h.events| - 1;
    assert h.states[n] == mid.Last() && h.events[n] == Step(j.pid, Writer(j, Ended(true)));
  }

  lemma SameBytes(input: Text, from: nat, n: nat, total: nat)
    requires from + n <= total && from + n <= |input|
    ensures input[from..][..n] == BodyOf(input, total)[from..from + n]
  {
  }

  datatype BodyResult = Stored | DiskError(left: nat) | SocketDead

  /** The body goes to the temp one bounded chunk at a time. On a disk error `left` bytes are still unread. */
  method StreamBody(conn: Socket, k: Process, total: nat, tmp: Text, ino: nat, ghost j: Job, ghost h0: Run,
                    ghost seen: Option<Inode>)
    returns (r: BodyResult)
    requires Valid(h0.Last().fs) && WritesAt(h0, k.history, k.alone, j, Writing(seen, ino, 0), k.fs)
    requires Name(tmp) == Temp(j) && j.pid == k.pid && j.payload == BodyOf(conn.input, total)
    modifies conn`input, conn`broken, k`fs, k`calls, k`faults, k`history
    ensures old(conn.broken) ==> conn.broken
    ensures k.faults >= old(k.faults) && (r.DiskError? ==> k.faults > old(k.faults))
    ensures r.Stored? ==> WritesAt(h0, k.history, k.alone, j, Writing(seen, ino, |j.payload|), k.fs)
    ensures !r.Stored? ==> WritesAt(h0, k.history, k.alone, j, Ended(false), k.fs)
    ensures r.SocketDead? && !conn.broken ==> total > |old(conn.input)|
    ensures !r.SocketDead? ==> conn.broken == old(conn.broken)
    ensures r.Stored? ==> total <= |old(conn.input)| && conn.input == old(conn.input)[total..]
    ensures r.DiskError? ==> r.left <= total && total - r.left <= |old(conn.input)|
                             && conn.input == old(conn.input)[total - r.left..]
    ensures MadeAs(old(k.calls), k.calls, k.creds)
  {
    hide WritesAt, Valid;
    var remaining := total;
    while remaining > 0
      invariant 0 <= remaining <= total && conn.broken == old(conn.broken)
      invariant total - remaining <= |old(conn.input)| && conn.input == old(conn.input)[total - remaining..]
      invariant WritesAt(h0, k.history, k.alone, j, Writing(seen, ino, total - remaining), k.fs)
      invariant k.faults >= old(k.faults) && MadeAs(old(k.calls), k.calls, k.creds)
      decreases remaining
    {
      var chunk := Min(remaining, CHUNK);
      var data := conn.RecvAtLeast(chunk);
      if data.None? {
        Abandon(k, tmp, j, h0, Writing(seen, ino, total - remaining));
        return SocketDead;
      }
      SameBytes(old(conn.input), total - remaining, chunk, total);
      var ok;
      ghost var done;
      ok, done := WriteAll(k, ino, data.value, j, h0, seen, total - remaining);
      if !ok {
        Abandon(k, tmp, j, h0, Writing(seen, ino, done));
        return DiskError(remaining - chunk);
      }
      remaining := remaining - chunk;
    }
    assert total - remaining == total == |j.payload|;
    return Stored;
  }

  /** What stands in a write's way besides outside failures: a target that is no regular file, or a temp file
      of this name left by an earlier process. */
  predicate CanWrite(j: Job, fs: Fs) {
    Temp(j) !in fs.dir && (Lookup(fs, Target(j)).Some? ==> Lookup(fs, Target(j)).value.kind == Regular)
  }

  /** Without outside failures the write succeeds exactly if it can, and knows its target. */
  predicate Decided(j: Job, fs: Fs, allowed: bool, w: WriterLog) {
    && w.ok == (allowed && CanWrite(j, fs))
    && (w.ok ==> w.seen == Lookup(fs, Target(j)))
  }

  /** What stood in the way, by what the answer says. */
  predicate Blocked(r: Response, id: real, j: Job, fs: Fs) {
    !CanWrite(j, fs) ==>
      var target := Lookup(fs, Target(j));
      r == Failed(id, if target.Some? && target.value.kind != Regular then NotAFile else NoTempFile)
  }

  /** With no failed call and nothing else at the files: the write succeeds exactly if nothing is wrong with the
      request and the target and the temp name allow it, and the answer says what was in the way. */
  predicate Settles(j: Job, fs: Fs, problem: Option<Problem>, w: WriterLog, r: Response, id: real) {
    Decided(j, fs, problem.None?, w) && (problem.None? ==> Blocked(r, id, j, fs))
  }

  datatype Opening = Opened(ino: nat) | NotRegular | NoTemp

  /** stat; a target that is not a regular file is the end of the write. */
  method StatTarget(k: Process, path: Text, ghost j: Job, ghost h0: Run) returns (fits: bool, st: Option<Inode>)
    requires Valid(h0.Last().fs) && WritesAt(h0, k.history, k.alone, j, Ready, k.fs) && j.pid == k.pid
    requires Name(path) == Target(j)
    modifies k`fs, k`calls, k`faults, k`history
    ensures WritesAt(h0, k.history, k.alone, j, if fits then Inspected(st) else Ended(false), k.fs)
    ensures k.faults >= old(k.faults) && k.calls == old(k.calls) + [k.creds]
    ensures k.alone && k.faults == old(k.faults) ==> st == Lookup(h0.Last().fs, Target(j))
    ensures fits <==> (st.Some? ==> st.value.kind == Regular)
  {
    hide WritesAt, Interlude, IsRun, Valid, Reached;
    ghost var before := k.history;
    InStepOf(k, h0, j, Ready);
    st := k.Stat(path);
    AsBefore(h0, before, k.history, k.alone, j, Ready);
    fits := st.Some? ==> st.value.kind == Regular;
    ghost var pc := if fits then Inspected(st) else Ended(false);
    assert StatStep(j, WState(Ready, k.fs), WState(pc, k.fs));
    Advance(k, h0, before, j, Ready, pc);
  }

  /** stat, refuse a target that is not a regular file, then create the temp. */
  method OpenTemp(k: Process, path: Text, tmp: Text, ghost j: Job, ghost h0: Run)
    returns (o: Opening, st: Option<Inode>)
    requires Valid(h0.Last().fs) && WritesAt(h0, k.history, k.alone, j, Ready, k.fs) && j.pid == k.pid
    requires Name(path) == Target(j) && Name(tmp) == Temp(j) && j.euid == k.creds.euid && j.egid == k.creds.egid
    modifies k`fs, k`calls, k`faults, k`history
    ensures o.Opened? ==> WritesAt(h0, k.history, k.alone, j, Writing(st, o.ino, 0), k.fs)
    ensures !o.Opened? ==> WritesAt(h0, k.history, k.alone, j, Ended(false), k.fs)
    ensures k.faults >= old(k.faults)
    ensures k.alone && k.faults == old(k.faults) ==>
              st == Lookup(h0.Last().fs, Target(j)) && o.Opened? == CanWrite(j, h0.Last().fs)
    ensures o.NotRegular? <==> st.Some? && st.value.kind != Regular
    ensures MadeAs(old(k.calls), k.calls, k.creds)
  {
    hide WritesAt, Interlude, IsRun, Valid, Reached;
    var fits;
    fits, st := StatTarget(k, path, j, h0);
    if !fits {
      return NotRegular, st;
    }
    ghost var before := k.history;
    InStepOf(k, h0, j, Inspected(st));
    var fd := k.OpenExcl(tmp);
    AsBefore(h0, before, k.history, k.alone, j, Inspected(st));
    ghost var pc := if fd.Some? then Writing(st, fd.value, 0) else Ended(false);
    assert CreateStep(j, WState(Inspected(st), k.history.Last().fs), WState(pc, k.fs));
    Advance(k, h0, before, j, Inspected(st), pc);
    return if fd.Some? then Opened(fd.value) else NoTemp, st;
  }

  /** Alone, a write that has opened nothing yet still sees the first files. */
  lemma AsBefore(h0: Run, before: Run, h: Run, alone: bool, j: Job, pc: Pc)
    requires WritesAt(h0, before, alone, j, pc, before.Last().fs) && Interlude(before, h, j.pid, alone)
    requires pc.Ready? || pc.Inspected?
    ensures alone ==> h.Last().fs == h0.Last().fs
  {
  }

  // ---------------------------------------------------------------- the two verbs

  /** write_file, once the request has its path and content and runs with the right ids. */
  method WriteFileAs(id: real, path: Text, content: Text, mode: Option<int>, k: Process, codec: Codec, ghost j: Job)
    returns (resp: Response, ghost w: WriterLog)
    requires k.InStep() && IsIdle(k.history, k.pid)
    requires j == Job(k.pid, path, codec.fromBase64(content), mode, k.creds.euid, k.creds.egid)
    modifies k`fs, k`calls, k`faults, k`history
    ensures k.InStep() && IsIdle(k.history, k.pid)
    ensures Wrought(old(k.history), k.history, k.alone, j, w) && Reports(resp, id, j, w) && !TurnedBack(resp)
    ensures k.faults >= old(k.faults)
    ensures k.alone && k.faults == old(k.faults) ==> Settles(j, old(k.fs), None, w, resp, id)
    ensures MadeAs(old(k.calls), k.calls, k.creds)
  {
    hide WritesAt, Wrought, IsRun, Valid;
    ghost var h0 := k.history;
    RunIsValid(h0);
    k.Begin(Writer(j, Ready));
    Starts(h0, k.alone, j);
    var tmp := TempName(path, k.pid);
    var o, st := OpenTemp(k, path, tmp, j, h0);
    w := WriterLog(st, false);
    match o
    case NotRegular =>
      InStepOf(k, h0, j, Ended(false));
      GivesUp(h0, k.history, k.alone, j, k.fs, st);
      return Failed(id, NotAFile), w;
    case NoTemp =>
      InStepOf(k, h0, j, Ended(false));
      GivesUp(h0, k.history, k.alone, j, k.fs, st);
      return Failed(id, NoTempFile), w;
    case Opened(ino) =>
    var data := codec.fromBase64(content);
    assert data == j.payload[0..|data|];
    var ok;
    ghost var done;
    ok, done := WriteAll(k, ino, data, j, h0, st, 0);
    if !ok {
      Abandon(k, tmp, j, h0, Writing(st, ino, done));
      InStepOf(k, h0, j, Ended(false));
      GivesUp(h0, k.history, k.alone, j, k.fs, st);
      return Failed(id, SystemError), w;
    }
    var finalMode;
    ok, finalMode, w := Install(k, path, tmp, ino, st, mode, j, h0);
    if !ok {
      return Failed(id, SystemError), w;
    }
    resp := Wrote(id, path, |data|, finalMode, st.None?);
  }

  /** put_file, once the header is understood and the request runs with the right ids. */
  method PutFileAs(id: real, path: Text, total: nat, mode: Option<int>, conn: Socket, k: Process, ghost j: Job)
    returns (rc: Rc, ghost w: WriterLog)
    requires k.InStep() && IsIdle(k.history, k.pid) && conn.Tracks()
    requires j == Job(k.pid, path, BodyOf(conn.input, total), mode, k.creds.euid, k.creds.egid)
    modifies conn, k`fs, k`calls, k`faults, k`history
    ensures k.InStep() && IsIdle(k.history, k.pid)
    ensures conn.Tracks() && (old(conn.broken) ==> conn.broken)
    ensures Wrought(old(k.history), k.history, k.alone, j, w)
    ensures k.faults >= old(k.faults)
    ensures MadeAs(old(k.calls), k.calls, k.creds)
    ensures rc != NotStreaming && (w.ok ==> total <= |old(conn.input)|)
    ensures rc == Continue ==> BodyConsumed(old(conn.input), conn.input, total) && conn.broken == old(conn.broken)
                               && OneMore(old(conn.replies), conn.replies)
                               && Reports(conn.replies[|conn.replies| - 1].resp, id, j, w)
                               && !TurnedBack(conn.replies[|conn.replies| - 1].resp)
    ensures k.alone && k.faults == old(k.faults) && rc == Continue ==>
              Settles(j, old(k.fs), None, w, conn.replies[|conn.replies| - 1].resp, id)
    ensures rc != Continue ==> (conn.broken || total > |old(conn.input)|) && conn.replies == old(conn.replies)
  {
    hide WritesAt, Wrought, Encode, IsRun, Valid, Lookup, TempName;
    ghost var h0 := k.history;
    RunIsValid(h0);
    k.Begin(Writer(j, Ready));
    Starts(h0, k.alone, j);
    var tmp := TempName(path, k.pid);
    var o, st := OpenTemp(k, path, tmp, j, h0);
    w := WriterLog(st, false);
    if !o.Opened? {
      InStepOf(k, h0, j, Ended(false));
      GivesUp(h0, k.history, k.alone, j, k.fs, st);
      rc := DrainAndFail(conn, total, Failed(id, if o.NotRegular? then NotAFile else NoTempFile));
      return rc, w;
    }
    rc, w := Receive(id, path, total, mode, conn, k, tmp, o.ino, st, j, h0);
  }

  /** The body into the open temp, the temp into place, and the answer. */
  method Receive(id: real, path: Text, total: nat, mode: Option<int>, conn: Socket, k: Process, tmp: Text, ino: nat,
                 st: Option<Inode>, ghost j: Job, ghost h0: Run)
    returns (rc: Rc, ghost w: WriterLog)
    requires conn.Tracks() && Valid(h0.Last().fs)
    requires WritesAt(h0, k.history, k.alone, j, Writing(st, ino, 0), k.fs)
    requires j.pid == k.pid && j.path == path && j.mode == mode && j.payload == BodyOf(conn.input, total)
    requires j.euid == k.creds.euid && Name(tmp) == Temp(j)
    modifies conn, k`fs, k`calls, k`faults, k`history
    ensures k.InStep() && IsIdle(k.history, k.pid)
    ensures conn.Tracks() && (old(conn.broken) ==> conn.broken)
    ensures Wrought(h0, k.history, k.alone, j, w) && (w.ok ==> w.seen == st)
    ensures k.faults >= old(k.faults)
    ensures k.alone && k.faults == old(k.faults) && rc == Continue && NoDirectory(j, h0.Last().fs) ==> w.ok
    ensures MadeAs(old(k.calls), k.calls, k.creds)
    ensures rc != NotStreaming && (w.ok ==> total <= |old(conn.input)|)
    ensures rc == Continue ==> BodyConsumed(old(conn.input), conn.input, total) && conn.broken == old(conn.broken)
                               && OneMore(old(conn.replies), conn.replies)
                               && Reports(conn.replies[|conn.replies| - 1].resp, id, j, w)
                               && !TurnedBack(conn.replies[|conn.replies| - 1].resp)
    ensures rc != Continue ==> (conn.broken || total > |old(conn.input)|) && conn.replies == old(conn.replies)
  {
    hide WritesAt, Wrought, Encode, IsRun, Valid, Lookup, TempName;
    var body := StreamBody(conn, k, total, tmp, ino, j, h0, st);
    if !body.Stored? {
      w := WriterLog(st, false);
      InStepOf(k, h0, j, Ended(false));
      GivesUp(h0, k.history, k.alone, j, k.fs, st);
      if body.SocketDead? {
        return MustClose, w;
      }
      rc := DrainAndFail(conn, body.left, Failed(id, SystemError));
      return rc, w;
    }
    var ok, finalMode;
    ok, finalMode, w := Install(k, path, tmp, ino, st, mode, j, h0);
    var sent := conn.SendLine(if ok then Wrote(id, path, total, finalMode, st.None?) else Failed(id, SystemError));
    rc := if sent then Continue else Threw;
  }
}
