/** What a request may rely on in a crowd: any number of other processes at the same files, interleaved call by call
    with this one, as the histories of the stages record. */
module Guarantees {
  import opened Base
  import opened FileSystem
  import opened WriterProtocol
  import opened ReaderProtocol
  import opened Concurrency
  import opened Framing
  import opened Requests
  import opened Writes
  import opened Answers
  import Sessions

  predicate IsWrite(c: Setting, t: Stage) {
    && AdmittedLine(c.codec.parse, c.gate, t.frame.line)
    && var req := Sessions.LineRequest(c, t);
       VerbOf(req) == WriteFileVerb || (VerbOf(req) == PutFileVerb && PutBytes(req).Some?)
  }

  /** The write the stage is about. */
  function JobAt(c: Setting, t: Stage): Job
    requires IsWrite(c, t)
  {
    var req := Sessions.LineRequest(c, t);
    JobFor(c, req, if VerbOf(req) == PutFileVerb then t.frame.body else ContentOf(c.codec, req), t)
  }

  lemma StageWrought(c: Setting, t: Stage)
    requires Truthful(c, t) && IsWrite(c, t)
    ensures Wrought(t.before.history, t.after.history, c.alone, JobAt(c, t), t.log)
    ensures t.reply.Some? ==> (t.reply.value.resp.Wrote? <==> t.log.ok)
  {
    hide Wrought, Decided, Confined, Extends, IsRun;
  }

  /** An upload or write that succeeds, in whatever company: at its end the target names the whole content, with its
      final mode and owner. One that fails has committed nothing. */
  lemma WriteIsAllOrNothing(c: Setting, t: Stage)
    requires Truthful(c, t) && IsWrite(c, t)
    ensures t.log.ok && IsTame(t.after.history) ==>
              var j := JobAt(c, t); Lookup(t.after.fs, Target(j)) == Some(FinalInode(j, t.log.seen))
    ensures !t.log.ok ==> forall k :: |t.before.history.events| <= k < |t.after.history.events| ==>
              !(t.after.history.events[k].pid == c.pid && Commits(t.after.history.states[k], t.after.history.events[k]))
  {
    hide Truthful, IsRun, IsTame, Began, Commits, Saw, Untouched;
    StageWrought(c, t);
    HistoryOf(c, t);
    var h, j := t.after.history, JobAt(c, t);
    if t.log.ok && IsTame(h) {
      LastCommitHolds(t.before.history, h, j, t.log.seen);
    }
    if !t.log.ok {
      forall k | |t.before.history.events| <= k < |h.events| ensures !(h.events[k].pid == c.pid
                                                                       && Commits(h.states[k], h.events[k])) {
        NotByMe(t.before.history, h, j, k);
      }
    }
  }

  lemma HistoryOf(c: Setting, t: Stage)
    requires Truthful(c, t)
    ensures IsRun(t.after.history) && t.after.fs == t.after.history.Last().fs
            && Extends(t.before.history, t.after.history)
  {
    hide VerbTruth, Confined;
  }

  lemma LastCommitHolds(h0: Run, h: Run, j: Job, seen: Option<Inode>)
    requires IsRun(h) && IsTame(h) && Extends(h0, h) && CommitsLast(h0, h, j, seen)
    ensures Lookup(h.Last().fs, Target(j)) == Some(FinalInode(j, seen))
  {
    hide Happens, Began;
    var n := |h.events| - 1;
    BeforeIsRun(h);
    BeforeIsTame(h);
    InvHolds(Before(h));
    assert Before(h).Last() == h.states[n];
    CommitsNow(h.states[n], h.events[n], h.Last());
  }

  /** What a successful write knew of its target is what the path named at a moment since the request began. */
  lemma SawItsTarget(c: Setting, t: Stage)
    requires Truthful(c, t) && IsWrite(c, t) && t.log.ok && t.log.seen.Some?
    ensures t.log.seen.value.kind == Regular
    ensures var h := t.after.history;
            exists k: nat :: NamedAt(h, c.pid, JobAt(c, t).path, t.log.seen.value, k) && k > |t.before.history.events|
  {
    hide Truthful, IsRun, Began, Commits, Saw, Untouched;
    StageWrought(c, t);
    HistoryOf(c, t);
    CommitSaw(t.before.history, t.after.history, JobAt(c, t), t.log.seen);
  }

  lemma CommitSaw(h0: Run, h: Run, j: Job, seen: Option<Inode>)
    requires IsRun(h) && Extends(h0, h) && CommitsLast(h0, h, j, seen) && seen.Some?
    ensures seen.value.kind == Regular
    ensures exists k: nat :: NamedAt(h, j.pid, j.path, seen.value, k) && k > |h0.events|
  {
    hide IsRun, Happens, Began;
    BeforeIsRun(h);
    var b := Before(h);
    assert b.Last() == h.states[|h.events| - 1];
    TargetSeen(b, j.pid);
    var k: nat :| NamedAt(b, j.pid, j.path, seen.value, k);
    Earlier(h, j.pid);
    CommitIsNoStart(h, j.pid);
    assert NamedAt(h, j.pid, j.path, seen.value, k);
  }

  lemma CommitIsNoStart(h: Run, pid: nat)
    requires IsRun(h) && |h.events| > 0 && Commits(h.states[|h.events| - 1], h.events[|h.events| - 1])
    ensures !h.events[|h.events| - 1].Start?
  {
  }

  lemma NotByMe(h0: Run, h: Run, j: Job, k: nat)
    requires IsRun(h) && Extends(h0, h) && |h0.events| <= k < |h.events|
    requires h == h0 || (Doing(h, j.pid) == Some(Writer(j, Ended(false))) && Began(h, j.pid) == |h0.events| + 1)
    ensures !(h.events[k].pid == j.pid && Commits(h.states[k], h.events[k]))
  {
    hide IsRun, Began;
    if k >= Began(h, j.pid) {
      FailureCommitsNothing(h, j.pid, k);
    } else {
      BeganIsStart(h, j.pid);
    }
  }

  lemma BeganIsStart(h: Run, pid: nat)
    ensures Began(h, pid) > 0 ==> h.events[Began(h, pid) - 1].Start?
  {
  }

  /** A download that sends its file whole sends exactly one version, with its size and mode: one its path named while
      the request was being served, whoever was writing it. It is whole unless a call failed. */
  lemma DownloadIsSnapshot(c: Setting, t: Stage)
    requires Truthful(c, t) && Sessions.IsGet(c, t) && t.reply.Some? && t.reply.value.resp.Sending?
    requires IsTame(t.after.history) && !IsWorkName(Name(PathOf(Sessions.LineRequest(c, t))))
    ensures t.readFailed ==> Faulty(t)
    ensures !t.readFailed ==> exists node: Inode, k: nat ::
              && NamedAt(t.after.history, c.pid, PathOf(Sessions.LineRequest(c, t)), node, k)
              && k > |t.before.history.events| && t.reply.value.body == node.data
              && t.reply.value.resp.bytes == |node.data| && t.reply.value.resp.mode == PermBits(node.mode)
  {
    hide IsRun, IsTame, IsWorkName, Began, Confined;
    var h, req := t.after.history, Sessions.LineRequest(c, t);
    assert GetTruth(c, req, t);
    GetIsSnapshot(h, c.pid);
    if !t.readFailed {
      var g := Doing(h, c.pid).value.get;
      var k: nat :| NamedAt(h, c.pid, PathOf(req), g.snap, k);
    }
  }

  /** read_file in a crowd: some version its path named while the request was being served, cut at the 32-bit size of
      the one it named at that moment or an earlier one, whose mode it reports. */
  lemma ReadIsCut(c: Setting, t: Stage)
    requires Truthful(c, t) && AdmittedLine(c.codec.parse, c.gate, t.frame.line)
    requires VerbOf(Sessions.LineRequest(c, t)) == ReadFileVerb && t.reply.Some? && t.reply.value.resp.Contents?
    requires IsTame(t.after.history) && !IsWorkName(Name(PathOf(Sessions.LineRequest(c, t))))
    ensures exists seen: Inode, node: Inode ::
              && StattedThenNamed(t.after.history, c.pid, PathOf(Sessions.LineRequest(c, t)), seen, node)
              && Began(t.after.history, c.pid) > |t.before.history.events|
              && t.reply.value.resp.mode == PermBits(seen.mode)
              && t.reply.value.resp.content == c.codec.toBase64(node.data[..Min(SizeOf(seen), |node.data|)])
  {
    hide IsRun, IsTame, IsWorkName, Began, Confined, StattedThenNamed;
    var h, req := t.after.history, Sessions.LineRequest(c, t);
    assert ReadTruth(c, req, t);
    ReadIsCutSnapshot(h, c.pid);
    var d := Doing(h, c.pid).value.slurp;
    assert StattedThenNamed(h, c.pid, PathOf(req), d.seen, d.snap);
  }
}
