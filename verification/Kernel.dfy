/** The kernel as one process of the agent meets it: its credentials, the file system, and the system
    calls the file verbs make. A call can fail for reasons outside the model (permissions, a full disk, an I/O
    error, memory); such a failure changes nothing and is counted, so contracts can say what must happen when
    there is none. */
module Kernel {
  import opened Base
  import opened FileSystem
  import opened Concurrency

  datatype Creds = Creds(ruid: int, euid: int, suid: int, rgid: int, egid: int, sgid: int, groups: set<int>)

  /** A passwd entry, with the groups the group database lists for the name. */
  datatype Account = Account(uid: int, gid: int, groups: set<int>)

  function GroupsOf(a: Account): set<int> {
    a.groups + {a.gid}
  }

  predicate MaySetegid(c: Creds, g: int, validIds: set<int>) {
    g in validIds && (c.euid == 0 || g == c.rgid || g == c.sgid)
  }

  predicate MaySeteuid(c: Creds, u: int, validIds: set<int>) {
    u in validIds && (c.euid == 0 || u == c.ruid || u == c.suid)
  }

  /** A read() result: an error, or some bytes (none of them only at the end of the file). */
  datatype ReadResult = ReadError | Got(data: Text)

  /** A command given to the shell, with its exit status and what it printed. */
  datatype Command = Command(text: Text, status: int, output: Text)

  /** A process at one moment: its files and credentials, what it has done so far, and the history it is part of. */
  datatype World = World(
    fs: Fs,
    creds: Creds,
    calls: seq<Creds>,                 // the credentials each file-system call was made with
    commands: seq<Command>,            // what was run through the shell
    faults: nat,                       // the calls that failed for reasons outside the model
    history: Run)                      // the steps of all processes on these files, so far as this one has met them

  class Process {
    const pid: nat
    const passwd: map<Text, Account>
    const validIds: set<int>
    const alone: bool                  // nothing else touches the files while this process runs
    var fs: Fs
    var creds: Creds
    ghost var calls: seq<Creds>
    ghost var commands: seq<Command>
    ghost var faults: nat
    ghost var history: Run

    constructor (pid: nat, passwd: map<Text, Account>, validIds: set<int>, alone: bool, fs: Fs, creds: Creds,
                 ghost history: Run)
      ensures this.pid == pid && this.passwd == passwd && this.validIds == validIds && this.alone == alone
      ensures Now() == World(fs, creds, [], [], 0, history)
    {
      this.pid, this.passwd, this.validIds, this.alone, this.fs, this.creds := pid, passwd, validIds, alone, fs, creds;
      this.history, calls, commands, faults := history, [], [], 0;
    }

    ghost function Now(): World
      reads this
    {
      World(fs, creds, calls, commands, faults, history)
    }

    /** The files are as the history has left them. */
    ghost predicate InStep()
      reads this
    {
      IsRun(history) && history.Last().fs == fs && Valid(fs)
    }

    /** What holds of the daemon started as root, between requests: real and effective root, and ids the
        kernel accepts. A daemon that is not root (euid other than 0) is covered too. */
    ghost predicate Ready()
      reads this
    {
      InStep() && IsIdle(history, pid) && (creds.euid == 0 ==> creds.ruid == 0) && 0 in validIds
          && creds.egid in validIds
    }

    // -------------------------------------------------------------- the others

    /** Before each call on the files, other processes may have run. */
    method Preempted()
      requires InStep()
      modifies this`fs, this`history
      ensures InStep() && Interlude(old(history), history, pid, alone)
    {
      var after: Fs := *;
      if alone || !Meddles(fs, after) {
        after := fs;
      }
      Explained(history, pid, alone, after);
      ghost var later: Run :| Interlude(history, later, pid, alone) && later.Last().fs == after;
      fs, history := after, later;
    }

    /** A request of this process joins the history. */
    ghost method Begin(p: Proc)
      requires InStep() && IsIdle(history, pid) && IsStart(pid, p)
      modifies this`history
      ensures InStep() && history == Begun(old(history), pid, p)
    {
      BegunIsRun(history, pid, p);
      history := Begun(history, pid, p);
    }

    /** What the process has just done is a step of its request. */
    ghost method Record(p: Proc)
      requires IsRun(history) && Valid(fs)
      requires Doing(history, pid).Some? && Moves(Doing(history, pid).value, history.Last().fs, p, fs)
      modifies this`history
      ensures InStep() && history == Stepped(old(history), pid, p, fs)
    {
      SteppedIsRun(history, pid, p, fs);
      history := Stepped(history, pid, p, fs);
    }

    /** Does this call fail for an outside reason? */
    method Fault() returns (fails: bool)
      modifies this`faults
      ensures faults == old(faults) + if fails then 1 else 0
    {
      fails := *;
      if fails {
        faults := faults + 1;
      }
    }

    /** malloc() */
    method Malloc() returns (ok: bool)
      modifies this`faults
      ensures faults >= old(faults) && (!ok ==> faults > old(faults))
    {
      var fails := Fault();
      ok := !fails;
    }

    // -------------------------------------------------------------- credentials

    /** initgroups(): root only, and it can fail for reasons of its own. */
    method Initgroups(name: Text, gid: int) returns (ok: bool)
      requires Name(name) in passwd
      modifies this`creds, this`faults
      ensures ok ==> old(creds).euid == 0 && creds == old(creds).(groups := passwd[Name(name)].groups + {gid})
      ensures !ok ==> creds == old(creds)
      ensures faults >= old(faults) && (!ok && old(creds).euid == 0 ==> faults > old(faults))
    {
      var fails := Fault();
      ok := !fails && creds.euid == 0;
      if ok {
        creds := creds.(groups := passwd[Name(name)].groups + {gid});
      }
    }

    method Setegid(g: int) returns (ok: bool)
      modifies this`creds
      ensures ok == MaySetegid(old(creds), g, validIds)
      ensures creds == if ok then old(creds).(egid := g) else old(creds)
    {
      ok := MaySetegid(creds, g, validIds);
      if ok {
        creds := creds.(egid := g);
      }
    }

    method Seteuid(u: int) returns (ok: bool)
      modifies this`creds
      ensures ok == MaySeteuid(old(creds), u, validIds)
      ensures creds == if ok then old(creds).(euid := u) else old(creds)
    {
      ok := MaySeteuid(creds, u, validIds);
      if ok {
        creds := creds.(euid := u);
      }
    }

    // -------------------------------------------------------------- files

    method Stat(p: Text) returns (r: Option<Inode>)
      requires InStep()
      modifies this`calls, this`faults, this`fs, this`history
      ensures InStep() && Interlude(old(history), history, pid, alone) && calls == old(calls) + [creds]
      ensures r.Some? ==> r == Lookup(fs, Name(p))
      ensures faults >= old(faults) && (faults == old(faults) ==> r == Lookup(fs, Name(p)))
    {
      Preempted();
      calls := calls + [creds];
      var fails := Fault();
      r := if fails then None else Lookup(fs, Name(p));
    }

    /** lstat() of stat, or the opendir() and readdir() of list_dir, which take a directory */
    method Inspect(p: Text, listing: bool) returns (ok: bool)
      requires InStep()
      modifies this`calls, this`faults, this`fs, this`history
      ensures InStep() && Interlude(old(history), history, pid, alone) && calls == old(calls) + [creds]
      ensures faults >= old(faults) && (ok ==> Shows(fs, p, listing))
      ensures faults == old(faults) ==> ok == Shows(fs, p, listing)
    {
      Preempted();
      calls := calls + [creds];
      var fails := Fault();
      ok := !fails && Shows(fs, p, listing);
    }

    method OpenExcl(p: Text) returns (ino: Option<nat>)
      requires InStep()
      modifies this`calls, this`fs, this`faults, this`history
      ensures Interlude(old(history), history, pid, alone) && Valid(fs) && calls == old(calls) + [creds]
      ensures faults >= old(faults) && (ino.None? && Name(p) !in history.Last().fs.dir ==> faults > old(faults))
      ensures ino.None? ==> fs == history.Last().fs
      ensures ino.Some? ==>
                && Name(p) !in history.Last().fs.dir && ino.value == history.Last().fs.next
                && fs == Create(history.Last().fs, Name(p), creds.euid, creds.egid)
    {
      Preempted();
      calls := calls + [creds];
      var fails := Fault();
      if fails || Name(p) in fs.dir {
        return None;
      }
      ino := Some(fs.next);
      fs := Create(fs, Name(p), creds.euid, creds.egid);
    }

    /** write(): an error, or at least one byte and at most all of them */
    method Write(ino: nat, data: Text) returns (n: int)
      requires InStep() && ino in fs.inodes && data != []
      modifies this`calls, this`fs, this`faults, this`history
      ensures Interlude(old(history), history, pid, alone) && Valid(fs) && calls == old(calls) + [creds]
      ensures faults >= old(faults) && (n < 0 ==> faults > old(faults)) && ino in history.Last().fs.inodes
      ensures n < 0 ==> fs == history.Last().fs
      ensures n >= 0 ==> 1 <= n <= |data| && fs == Append(history.Last().fs, ino, data[..n])
    {
      Preempted();
      calls := calls + [creds];
      var fails := Fault();
      if fails {
        return -1;
      }
      n :| 1 <= n <= |data|;
      fs := Append(fs, ino, data[..n]);
    }

    method Fchown(ino: nat, uid: int, gid: int)
      requires InStep() && ino in fs.inodes
      modifies this`calls, this`fs, this`history
      ensures Interlude(old(history), history, pid, alone) && Valid(fs) && calls == old(calls) + [creds]
      ensures ino in history.Last().fs.inodes && fs == Chown(history.Last().fs, ino, uid, gid)
    {
      Preempted();
      calls := calls + [creds];
      fs := Chown(fs, ino, uid, gid);
    }

    method Fchmod(ino: nat, mode: nat)
      requires InStep() && ino in fs.inodes
      modifies this`calls, this`fs, this`history
      ensures Interlude(old(history), history, pid, alone) && Valid(fs) && calls == old(calls) + [creds]
      ensures ino in history.Last().fs.inodes && fs == Chmod(history.Last().fs, ino, mode)
    {
      Preempted();
      calls := calls + [creds];
      fs := Chmod(fs, ino, mode);
    }

    /** rename(): refused if the name is gone, or the target is a directory */
    method RenameTo(from: Text, to: Text) returns (ok: bool)
      requires InStep()
      modifies this`calls, this`fs, this`faults, this`history
      ensures Interlude(old(history), history, pid, alone) && Valid(fs) && calls == old(calls) + [creds]
      ensures faults >= old(faults)
      ensures !ok && MayRename(history.Last().fs, Name(from), Name(to)) ==> faults > old(faults)
      ensures ok ==> MayRename(history.Last().fs, Name(from), Name(to))
                     && fs == Rename(history.Last().fs, Name(from), Name(to))
      ensures !ok ==> fs == history.Last().fs
    {
      Preempted();
      calls := calls + [creds];
      var fails := Fault();
      ok := !fails && MayRename(fs, Name(from), Name(to));
      if ok {
        fs := Rename(fs, Name(from), Name(to));
      }
    }

    method UnlinkName(p: Text)
      requires InStep()
      modifies this`calls, this`fs, this`history
      ensures Interlude(old(history), history, pid, alone) && Valid(fs) && calls == old(calls) + [creds]
      ensures fs == Unlink(history.Last().fs, Name(p))
    {
      Preempted();
      calls := calls + [creds];
      fs := Unlink(fs, Name(p));
    }

    method OpenRead(p: Text) returns (ino: Option<nat>)
      requires InStep()
      modifies this`calls, this`faults, this`fs, this`history
      ensures InStep() && Interlude(old(history), history, pid, alone) && calls == old(calls) + [creds]
      ensures faults >= old(faults) && (ino.None? && Name(p) in fs.dir ==> faults > old(faults))
      ensures ino.Some? ==> Name(p) in fs.dir && ino.value == fs.dir[Name(p)] && ino.value in fs.inodes
    {
      Preempted();
      calls := calls + [creds];
      var fails := Fault();
      ino := if fails || Name(p) !in fs.dir then None else Some(fs.dir[Name(p)]);
    }

    method Fstat(ino: nat) returns (r: Option<Inode>)
      requires InStep() && ino in fs.inodes
      modifies this`calls, this`faults, this`fs, this`history
      ensures InStep() && Interlude(old(history), history, pid, alone) && calls == old(calls) + [creds]
      ensures faults >= old(faults) && (r.None? ==> faults > old(faults)) && ino in fs.inodes
      ensures r.Some? ==> r.value == fs.inodes[ino]
    {
      Preempted();
      calls := calls + [creds];
      var fails := Fault();
      r := if fails then None else Some(fs.inodes[ino]);
    }

    /** read() of at most `want` bytes at offset `off` */
    method Read(ino: nat, off: nat, want: nat) returns (r: ReadResult)
      requires InStep() && ino in fs.inodes && want > 0
      modifies this`calls, this`faults, this`fs, this`history
      ensures InStep() && Interlude(old(history), history, pid, alone) && calls == old(calls) + [creds]
      ensures faults >= old(faults) && (r.ReadError? ==> faults > old(faults)) && ino in fs.inodes
      ensures r.Got? ==> var data := fs.inodes[ino].data;
                         if off >= |data| then r.data == []
                         else 1 <= |r.data| <= want && off + |r.data| <= |data| && r.data == data[off..off + |r.data|]
    {
      Preempted();
      calls := calls + [creds];
      var data := fs.inodes[ino].data;
      var fails := Fault();
      if fails {
        return ReadError;
      } else if off >= |data| {
        return Got([]);
      }
      var n: nat :| 1 <= n <= want && off + n <= |data|;
      return Got(data[off..off + n]);
    }

    /** A search command run through the shell only reads. */
    method RunQuery(cmd: Text) returns (rc: int, out: Text)
      modifies this`commands
      ensures commands == old(commands) + [Command(cmd, rc, out)]
    {
      rc, out := *, *;
      commands := commands + [Command(cmd, rc, out)];
    }

    /** A command run through the shell may do anything to the files. */
    method RunShell(cmd: Text) returns (rc: int, out: Text)
      requires InStep() && IsIdle(history, pid)
      modifies this`fs, this`commands, this`history
      ensures InStep() && IsIdle(history, pid) && Extends(old(history), history)
      ensures commands == old(commands) + [Command(cmd, rc, out)]
    {
      rc, out := *, *;
      commands := commands + [Command(cmd, rc, out)];
      Preempted();
      var after: Fs := *;
      if Meddles(fs, after) {
        ExtendRun(history, Outside(pid), Sys(after, history.Last().procs));
        fs, history := after, Extended(history, Outside(pid), Sys(after, history.Last().procs));
      }
    }
  }

  // ---------------------------------------------------------------- run-as-user

  /** Whose rights a request asks for. The account is looked up by a C string. */
  datatype Principal = AsDaemon | AsUser(name: Text, account: Account) | Unknown(name: Text)

  function PrincipalOf(passwd: map<Text, Account>, req: Request): Principal {
    match FindText(req, "user")
    case None => AsDaemon
    case Some(name) =>
      if name == [] then AsDaemon
      else if Name(name) in passwd then AsUser(name, passwd[Name(name)])
      else Unknown(name)
  }

  /** Can the process take on this principal's rights? */
  predicate MayRunAs(p: Principal, own: Creds, validIds: set<int>) {
    match p
    case AsDaemon => true
    case AsUser(_, a) => own.euid == 0 && a.gid in validIds && a.uid in validIds
    case Unknown(_) => false
  }

  /** Credentials a file-system call may be made with on behalf of `p`, in a process whose own are `own`. */
  predicate ActsFor(c: Creds, p: Principal, own: Creds) {
    match p
    case AsDaemon => c == own
    case AsUser(_, a) => c.euid == a.uid && c.egid == a.gid && c.groups == GroupsOf(a)
    case Unknown(_) => false
  }

  /** From `n` on, every call was made with the principal's rights. */
  ghost predicate AllActFor(calls: seq<Creds>, n: nat, p: Principal, own: Creds) {
    forall i :: n <= i < |calls| ==> ActsFor(calls[i], p, own)
  }

  /** From one world to the other every call was made with these effective ids and groups. */
  predicate CallsMadeWith(w0: World, w1: World, euid: int, egid: int, groups: set<int>) {
    forall i :: |w0.calls| <= i < |w1.calls| ==>
      w1.calls[i].euid == euid && w1.calls[i].egid == egid && w1.calls[i].groups == groups
  }

  /** The kernel accepts the account's gid and then refuses its uid. */
  predicate IsHalf(a: Account, validIds: set<int>) {
    a.gid in validIds && a.uid !in validIds
  }

  /** What a scope for `p` leaves of the credentials `own` when no call fails for an outside reason. The effective
      uid is back; the effective gid is not if the drop got past setegid and no further; the supplementary groups
      are never put back. */
  function LeftBy(own: Creds, p: Principal, validIds: set<int>): Creds {
    match p
    case AsUser(_, a) =>
      if own.euid != 0 then own
      else own.(groups := GroupsOf(a), egid := if IsHalf(a, validIds) then a.gid else own.egid)
    case _ => own
  }

  /** Where a request may leave the credentials: untouched, or as a scope for its user leaves them. */
  predicate Leaves(own: Creds, p: Principal, validIds: set<int>, after: Creds) {
    after == own || after == LeftBy(own, p, validIds)
  }

  /** The scoped drop of effective ids; Restore is its destructor. */
  class PrivGuard {
    var dropped: bool
    var okFlag: bool
    var savedEgid: int

    constructor ()
      ensures !dropped && okFlag
    {
      dropped, okFlag, savedEgid := false, true, 0;
    }

    method Drop(k: Process, name: Text, a: Account)
      requires !dropped && okFlag && k.Ready() && Name(name) in k.passwd && k.passwd[Name(name)] == a
      modifies this, k`creds, k`faults
      ensures dropped == okFlag
      ensures k.faults >= old(k.faults)
      ensures k.faults == old(k.faults) ==> okFlag == MayRunAs(AsUser(name, a), old(k.creds), k.validIds)
      ensures okFlag ==>
                && old(k.creds).euid == 0 && a.gid in k.validIds && a.uid in k.validIds
                && savedEgid == old(k.creds).egid
                && k.creds == old(k.creds).(groups := GroupsOf(a), egid := a.gid, euid := a.uid)
      ensures !okFlag ==> Leaves(old(k.creds), AsUser(name, a), k.validIds, k.creds)
      ensures !okFlag && a.gid in k.validIds && a.uid in k.validIds ==> k.creds == old(k.creds)
      ensures !okFlag && old(k.creds).euid != 0 ==> k.creds == old(k.creds)
      ensures !okFlag && k.faults == old(k.faults) ==> k.creds == LeftBy(old(k.creds), AsUser(name, a), k.validIds)
    {
      savedEgid := k.creds.egid;
      var ok := k.Initgroups(name, a.gid);
      if !ok {
        okFlag := false;
        return;
      }
      ok := k.Setegid(a.gid);
      if !ok {
        okFlag := false;
        return;
      }
      ok := k.Seteuid(a.uid);
      if !ok {
        okFlag := false;
        return;
      }
      dropped := true;
    }

    /** Root first, then the gid. */
    method Restore(k: Process)
      requires dropped ==> k.creds.ruid == 0 && 0 in k.validIds && savedEgid in k.validIds
      modifies k`creds
      ensures k.creds == if dropped then old(k.creds).(euid := 0, egid := savedEgid) else old(k.creds)
    {
      if dropped {
        var _ := k.Seteuid(0);
        var _ := k.Setegid(savedEgid);
      }
    }
  }

  function SetegidOn(c: Creds, g: int, validIds: set<int>): Creds {
    if MaySetegid(c, g, validIds) then c.(egid := g) else c
  }

  function SeteuidOn(c: Creds, u: int, validIds: set<int>): Creds {
    if MaySeteuid(c, u, validIds) then c.(euid := u) else c
  }

  /** Why root first: in this order the saved gid is always back. In the other it is back exactly if the kernel lets
      the user have it, or it was the user's own. */
  lemma RestoreOrder(own: Creds, a: Account, validIds: set<int>)
    requires own.euid == 0 == own.ruid && {0, own.egid, a.uid, a.gid} <= validIds
    ensures var inside := own.(groups := GroupsOf(a), egid := a.gid, euid := a.uid);
            && SetegidOn(SeteuidOn(inside, 0, validIds), own.egid, validIds) == own.(groups := GroupsOf(a))
            && (SeteuidOn(SetegidOn(inside, own.egid, validIds), 0, validIds) == own.(groups := GroupsOf(a)) <==>
                  a.uid == 0 || own.egid == own.rgid || own.egid == own.sgid || own.egid == a.gid)
  {
    assert 0 in {0, own.egid, a.uid, a.gid} && own.egid in {0, own.egid, a.uid, a.gid};
  }
}
