/** One writer of the agent, write_file or put_file, as the sequence of system calls it makes:
    stat, open the temp, write in pieces, fchown, fchmod, rename; on an error, unlink.
    Each step is one atomic action on the shared file system. */
module WriterProtocol {
  import opened Base
  import opened FileSystem
  import opened TempNames

  /** What a request asks for, and who runs it. `mode` is the explicit mode of the request, if any. */
  datatype Job = Job(pid: nat, path: Path, payload: Text, mode: Option<int>, euid: int, egid: int)

  /** The names the kernel sees. With a NUL in the path both are the part before it. */
  function Temp(j: Job): Path {
    Name(TempName(j.path, j.pid))
  }

  function Target(j: Job): Path {
    Name(j.path)
  }

  lemma TempIsTarget(j: Job)
    ensures Temp(j) == Target(j) <==> '\0' in j.path
    ensures '\0' !in j.path ==> Temp(j) == TempName(j.path, j.pid) && Target(j) == j.path
  {
    NameOfTemp(j.path, j.pid);
    TempNameDiffers(j.path, j.pid);
  }

  datatype Pc =
    | Ready
    | Inspected(seen: Option<Inode>)                       // after stat: the regular target, or none
    | Writing(seen: Option<Inode>, ino: nat, done: nat)    // temp open, `done` bytes in it
    | Owned(seen: Option<Inode>, ino: nat)                 // owner settled
    | Moded(seen: Option<Inode>, ino: nat)                 // mode settled, descriptor closed
    | Failing(ino: nat)                                    // about to unlink the temp
    | Ended(ok: bool)

  datatype WState = WState(pc: Pc, fs: Fs)

  /** Explicit mode wins; else the target's own; else 0644. */
  function FinalMode(mode: Option<int>, seen: Option<Inode>): (m: nat)
    ensures m < 4096
  {
    if mode.Some? then PermBits(mode.value)
    else if seen.Some? then PermBits(seen.value.mode)
    else 420
  }

  /** The owner is preserved only on overwrite and only by root. */
  predicate KeepsOwner(j: Job, seen: Option<Inode>) {
    seen.Some? && j.euid == 0
  }

  function FinalInode(j: Job, seen: Option<Inode>): Inode {
    Inode(Regular, j.payload, FinalMode(j.mode, seen),
          if KeepsOwner(j, seen) then seen.value.uid else j.euid,
          if KeepsOwner(j, seen) then seen.value.gid else j.egid)
  }

  // ---------------------------------------------------------------- the steps

  /** stat( path ): any failure of stat counts as "no target" (Verbs.cpp:523, 697). */
  predicate StatStep(j: Job, s: WState, s': WState) {
    && s.pc == Ready && s'.fs == s.fs
    && match s'.pc
       case Inspected(seen) => seen.Some? ==> seen == Lookup(s.fs, Target(j)) && seen.value.kind == Regular
       case Ended(ok) => !ok
       case _ => false
  }

  predicate CreateStep(j: Job, s: WState, s': WState) {
    && s.pc.Inspected?
    && if s'.pc == Ended(false) then s'.fs == s.fs
       else && Temp(j) !in s.fs.dir
            && s' == WState(Writing(s.pc.seen, s.fs.next, 0), Create(s.fs, Temp(j), j.euid, j.egid))
  }

  /** write() takes some of what is left, at least one byte. */
  predicate WriteStep(j: Job, s: WState, s': WState) {
    && s.pc.Writing? && s.pc.ino in s.fs.inodes && s'.pc.Writing?
    && s.pc.done < s'.pc.done <= |j.payload|
    && s' == WState(s.pc.(done := s'.pc.done), Append(s.fs, s.pc.ino, j.payload[s.pc.done..s'.pc.done]))
  }

  predicate ChownStep(j: Job, s: WState, s': WState) {
    && s.pc.Writing? && s.pc.done == |j.payload| && s.pc.ino in s.fs.inodes
    && s' == WState(Owned(s.pc.seen, s.pc.ino),
                    if KeepsOwner(j, s.pc.seen) then Chown(s.fs, s.pc.ino, s.pc.seen.value.uid, s.pc.seen.value.gid)
                    else s.fs)
  }

  predicate ChmodStep(j: Job, s: WState, s': WState) {
    && s.pc.Owned? && s.pc.ino in s.fs.inodes
    && s' == WState(Moded(s.pc.seen, s.pc.ino), Chmod(s.fs, s.pc.ino, FinalMode(j.mode, s.pc.seen)))
  }

  predicate RenameStep(j: Job, s: WState, s': WState) {
    && s.pc.Moded? && MayRename(s.fs, Temp(j), Target(j))
    && s' == WState(Ended(true), Rename(s.fs, Temp(j), Target(j)))
  }

  /** A failed write, a dead socket or a failed rename: nothing has changed yet. */
  predicate FailStep(j: Job, s: WState, s': WState) {
    && (s.pc.Writing? || s.pc.Moded?) && s' == WState(Failing(s.pc.ino), s.fs)
  }

  predicate UnlinkStep(j: Job, s: WState, s': WState) {
    && s.pc.Failing? && s' == WState(Ended(false), Unlink(s.fs, Temp(j)))
  }

  predicate WriterStep(j: Job, s: WState, s': WState) {
    || StatStep(j, s, s') || CreateStep(j, s, s') || WriteStep(j, s, s') || ChownStep(j, s, s')
    || ChmodStep(j, s, s') || RenameStep(j, s, s') || FailStep(j, s, s') || UnlinkStep(j, s, s')
  }

  // ---------------------------------------------------------------- one writer on its own

  /** An uninterrupted run: each state follows from the one before. */
  ghost predicate WriterRun(j: Job, run: seq<WState>) {
    && |run| > 0
    && (forall i :: 0 <= i < |run| - 1 ==> WriterStep(j, run[i], run[i + 1]))
  }

  /** The file system while the temp is open: the start, plus one private inode. */
  function WithTemp(j: Job, fs: Fs, node: Inode): Fs {
    Fs(fs.dir[Temp(j) := fs.next], fs.inodes[fs.next := node], fs.next + 1)
  }

  /** The file system after a successful write: the entry names a fresh, complete inode. */
  function Installed(j: Job, fs: Fs, seen: Option<Inode>): Fs {
    Fs(fs.dir[Target(j) := fs.next], fs.inodes[fs.next := FinalInode(j, seen)], fs.next + 1)
  }

  function TempInode(j: Job, data: Text): Inode {
    Inode(Regular, data, 384, j.euid, j.egid)
  }

  /** Where an uninterrupted run can be, in terms of where it started. */
  ghost predicate Reached(j: Job, fs: Fs, s: WState) {
    match s.pc
    case Ready => s.fs == fs
    case Inspected(seen) => s.fs == fs && Saw(j, fs, seen)
    case Writing(seen, ino, done) =>
      && Saw(j, fs, seen) && Temp(j) !in fs.dir && ino == fs.next && done <= |j.payload|
      && s.fs == WithTemp(j, fs, TempInode(j, j.payload[..done]))
    case Owned(seen, ino) =>
      && Saw(j, fs, seen) && Temp(j) !in fs.dir && ino == fs.next
      && exists m: nat :: s.fs == WithTemp(j, fs, FinalInode(j, seen).(mode := m))
    case Moded(seen, ino) =>
      && Saw(j, fs, seen) && Temp(j) !in fs.dir && ino == fs.next
      && s.fs == WithTemp(j, fs, FinalInode(j, seen))
    case Failing(ino) =>
      && Temp(j) !in fs.dir && ino == fs.next && exists node :: s.fs == WithTemp(j, fs, node)
    case Ended(ok) =>
      if ok then exists seen :: Saw(j, fs, seen) && s.fs == Installed(j, fs, seen)
      else Untouched(fs, s.fs)
  }

  predicate Saw(j: Job, fs: Fs, seen: Option<Inode>) {
    seen.Some? ==> seen == Lookup(fs, Target(j)) && seen.value.kind == Regular
  }

  lemma ReachedStep(j: Job, fs: Fs, s: WState, s': WState)
    requires Valid(fs) && Reached(j, fs, s) && WriterStep(j, s, s')
    ensures Reached(j, fs, s')
  {
    TempIsTarget(j);
    match s.pc
    case Ready =>
    case Inspected(_) =>
      assert j.payload[..0] == [];
    case Writing(seen, ino, done) =>
      WritingStep(j, fs, s, s');
    case Owned(seen, ino) =>
      var m: nat :| s.fs == WithTemp(j, fs, FinalInode(j, seen).(mode := m));
      assert s'.fs == WithTemp(j, fs, FinalInode(j, seen));
    case Moded(seen, ino) =>
      assert s'.pc == Ended(true) ==> s'.fs == Installed(j, fs, seen);
    case Failing(ino) =>
      var node :| s.fs == WithTemp(j, fs, node);
      assert s'.fs.dir == fs.dir;
    case Ended(_) =>
  }

  lemma WritingStep(j: Job, fs: Fs, s: WState, s': WState)
    requires s.pc.Writing? && Reached(j, fs, s) && WriterStep(j, s, s')
    ensures Reached(j, fs, s')
  {
    var seen, ino, done := s.pc.seen, s.pc.ino, s.pc.done;
    if s'.pc.Writing? {
      assert j.payload[..done] + j.payload[done..s'.pc.done] == j.payload[..s'.pc.done];
      assert s'.fs == WithTemp(j, fs, TempInode(j, j.payload[..s'.pc.done]));
    } else if s'.pc.Owned? {
      assert j.payload[..done] == j.payload;
      assert s'.fs == WithTemp(j, fs, FinalInode(j, seen).(mode := s'.fs.inodes[ino].mode));
    }
  }

  /** All or nothing: however its calls fail, a writer that runs to its end has either installed the whole
      payload with its final mode and owner, changing nothing else, or left every entry and inode as it was. */
  lemma {:induction false} AllOrNothing(j: Job, run: seq<WState>)
    requires WriterRun(j, run) && run[0].pc == Ready && Valid(run[0].fs)
    ensures Reached(j, run[0].fs, run[|run| - 1])
    decreases |run|
  {
    if |run| > 1 {
      var before := run[..|run| - 1];
      assert WriterRun(j, before) by {
        forall i | 0 <= i < |before| - 1 ensures WriterStep(j, before[i], before[i + 1]) {
          assert WriterStep(j, run[i], run[i + 1]);
        }
      }
      AllOrNothing(j, before);
      assert WriterStep(j, run[|run| - 2], run[|run| - 1]);
      ReachedStep(j, run[0].fs, run[|run| - 2], run[|run| - 1]);
    }
  }
}
