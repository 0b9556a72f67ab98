/** read_file and get_file, call by call, among whatever else runs: every call is a step of the reader protocols in
    the history of all processes. */
module Reads {
  import opened Base
  import opened FileSystem
  import opened ReaderProtocol
  import opened Concurrency
  import opened Framing
  import opened Connection
  import opened Kernel
  import opened Requests

  /** The history goes on; if nothing else touches the files, they stay as they are. */
  ghost predicate LooksOn(h0: Run, h: Run, alone: bool) {
    Extends(h0, h) && IsRun(h) && (alone ==> h.Last().fs == h0.Last().fs)
  }

  /** Process `pid` is at `p` of a read it began after `h0`; the file it has open is still there, and alone, is what
      its path named at first. */
  ghost predicate ReadsAt(h0: Run, h: Run, pid: nat, alone: bool, p: Proc, fs: Fs) {
    && ServesAt(h0, h, pid, p, fs) && (alone ==> fs == h0.Last().fs)
    && match p
       case Getter(path, GOpened(ino, snap)) => Holds(fs, alone, path, ino, snap)
       case Getter(path, GSending(ino, snap, stat, _)) => Holds(fs, alone, path, ino, snap) && (alone ==> stat == snap)
       case Slurper(path, RStatted(seen)) => alone ==> Lookup(fs, Name(path)) == Some(seen)
       case Slurper(path, RReading(seen, ino, snap, _)) =>
         Holds(fs, alone, path, ino, snap) && (alone ==> Lookup(fs, Name(path)) == Some(seen))
       case _ => true
  }

  ghost predicate Holds(fs: Fs, alone: bool, path: Text, ino: nat, snap: Inode) {
    ino in fs.inodes && (alone ==> Lookup(fs, Name(path)) == Some(fs.inodes[ino]) == Some(snap))
  }

  /** What a read in progress means for the process. */
  ghost predicate Reader(k: Process, h0: Run, p: Proc)
    reads k
  {
    && ReadsAt(h0, k.history, k.pid, k.alone, p, k.fs) && k.InStep()
    && Doing(k.history, k.pid) == Some(p) && Began(k.history, k.pid) == |h0.events| + 1
    && LooksOn(h0, k.history, k.alone)
    && (p.Getter? && (p.get.GOpened? || p.get.GSending?) ==> Holds(k.fs, k.alone, p.path, p.get.ino, p.get.snap))
    && (p.Getter? && p.get.GSending? && k.alone ==> p.get.stat == p.get.snap)
    && (p.Slurper? && p.slurp.RReading? ==> Holds(k.fs, k.alone, p.path, p.slurp.ino, p.slurp.snap))
  }

  ghost method BeginReader(k: Process, p: Proc)
    requires k.InStep() && IsIdle(k.history, k.pid) && IsStart(k.pid, p) && (p.Getter? || p.Slurper?)
    modifies k`history
    ensures Reader(k, old(k.history), p)
  {
    hide IsRun, Began;
    Begins(k.history, k.pid, p);
    k.Begin(p);
  }

  /** Others run, and the file this process has open stays there. */
  lemma ReaderRests(h0: Run, h: Run, mid: Run, pid: nat, alone: bool, p: Proc)
    requires ReadsAt(h0, h, pid, alone, p, h.Last().fs) && Interlude(h, mid, pid, alone)
    ensures ReadsAt(h0, mid, pid, alone, p, mid.Last().fs)
  {
    hide Began, IsRun;
    Rests(h0, h, mid, pid, alone, p);
  }

  /** Others ran before the last call; what was open is still there, and alone nothing changed. */
  lemma Paused(k: Process, h0: Run, before: Run, p: Proc)
    requires ReadsAt(h0, before, k.pid, k.alone, p, before.Last().fs) && Interlude(before, k.history, k.pid, k.alone)
    requires k.InStep()
    ensures Reader(k, h0, p)
  {
    hide Began, IsRun, Valid;
    ReaderRests(h0, before, k.history, k.pid, k.alone, p);
  }

  /** Record the step a reader has just made. */
  ghost method AdvanceReader(k: Process, h0: Run, p: Proc, p': Proc)
    requires Reader(k, h0, p) && (p.Getter? || p.Slurper?) && Moves(p, k.fs, p', k.fs)
    modifies k`history
    ensures Reader(k, h0, p') && (Over(p') ==> IsIdle(k.history, k.pid))
  {
    hide Began, IsRun, Valid;
    StandsStill(k.history, k.pid, k.alone);
    GoesOn(h0, k.history, k.history, k.pid, k.alone, p, p', k.fs);
    k.Record(p');
  }

  lemma Unmoved(h: Run, alone: bool)
    requires IsRun(h)
    ensures LooksOn(h, h, alone)
  {
  }

  /** read_file's answer to what it did: what it read of the file it opened, with the mode of the one it had seen. */
  ghost predicate Slurped(h0: Run, h: Run, pid: nat, resp: Response, id: real, path: Text, codec: Codec) {
    if resp.Contents? then
      && Doing(h, pid).Some? && Doing(h, pid).value.Slurper? && Doing(h, pid).value.path == path
      && Doing(h, pid).value.slurp.RDone? && Began(h, pid) == |h0.events| + 1
      && var d := Doing(h, pid).value.slurp;
         resp == Contents(id, path, |d.got|, PermBits(d.seen.mode), codec.toBase64(d.got))
    else resp.Failed? && resp.id == id
  }

  /** read_file's answer in quiet: the file up to its size as a 32-bit unsigned number, or an error. */
  predicate ReadAnswer(r: Response, id: real, path: Text, node: Option<Inode>, codec: Codec) {
    if r.Contents? then
      && node.Some? && node.value.kind == Regular
      && var size := SizeOf(node.value);
         r == Contents(id, path, size, PermBits(node.value.mode), codec.toBase64(node.value.data[..size]))
    else r.Failed? && r.id == id
  }

  lemma SlurpError(h0: Run, h: Run, pid: nat, id: real, e: Problem, path: Text, node: Option<Inode>, codec: Codec)
    ensures Slurped(h0, h, pid, Failed(id, e), id, path, codec) && ReadAnswer(Failed(id, e), id, path, node, codec)
  {
  }

  method ReadFileAs(id: real, path: Text, k: Process, codec: Codec) returns (resp: Response)
    requires k.InStep() && IsIdle(k.history, k.pid)
    modifies k`calls, k`faults, k`fs, k`history
    ensures k.InStep() && IsIdle(k.history, k.pid) && LooksOn(old(k.history), k.history, k.alone) && !TurnedBack(resp)
    ensures Slurped(old(k.history), k.history, k.pid, resp, id, path, codec)
    ensures k.alone ==> ReadAnswer(resp, id, path, Lookup(old(k.fs), Name(path)), codec)
    ensures k.faults >= old(k.faults)
    ensures k.alone && k.faults == old(k.faults) ==>
              resp.Contents? == IsFile(Lookup(old(k.fs), Name(path))) && NoFile(resp, id, Lookup(old(k.fs), Name(path)))
    ensures MadeAs(old(k.calls), k.calls, k.creds)
  {
    hide ReadsAt, Interlude, IsRun, Valid, Began, Extends;
    ghost var h0, p := k.history, Slurper(path, RReady);
    BeginReader(k, p);
    ghost var before := k.history;
    var st := k.Stat(path);
    Paused(k, h0, before, p);
    if st.None? || st.value.kind != Regular {
      AdvanceReader(k, h0, p, Slurper(path, RFailed));
      return Failed(id, if st.None? then SystemError else NotAFile);
    }
    AdvanceReader(k, h0, p, Slurper(path, RStatted(st.value)));
    resp := ReadStatted(id, path, st.value, k, codec, h0);
  }

  /** The open, and the memory for what is to be read. */
  method OpenStatted(k: Process, path: Text, seen: Inode, ghost h0: Run)
    returns (fd: Option<nat>, ghost snap: Inode)
    requires Reader(k, h0, Slurper(path, RStatted(seen)))
    modifies k`calls, k`faults, k`fs, k`history
    ensures fd.Some? ==> Reader(k, h0, Slurper(path, RReading(seen, fd.value, snap, [])))
    ensures fd.None? ==> Reader(k, h0, Slurper(path, RFailed)) && IsIdle(k.history, k.pid)
    ensures k.faults >= old(k.faults) && k.calls == old(k.calls) + [k.creds]
    ensures k.alone ==> if fd.Some? then seen == snap else k.faults > old(k.faults)
  {
    hide Interlude, IsRun, Valid, Began, Extends, LooksOn;
    ghost var p, before := Slurper(path, RStatted(seen)), k.history;
    snap := seen;
    fd := k.OpenRead(path);
    Paused(k, h0, before, p);
    if fd.Some? {
      snap := k.fs.inodes[fd.value];
      var memory := k.Malloc();
      if !memory {
        fd := None;
      }
    }
    AdvanceReader(k, h0, p, Slurper(path, if fd.Some? then RReading(seen, fd.value, snap, []) else RFailed));
  }

  /** open, malloc, read, once stat has told the size. */
  method ReadStatted(id: real, path: Text, seen: Inode, k: Process, codec: Codec, ghost h0: Run)
    returns (resp: Response)
    requires Reader(k, h0, Slurper(path, RStatted(seen)))
    modifies k`calls, k`faults, k`fs, k`history
    ensures k.InStep() && IsIdle(k.history, k.pid) && LooksOn(h0, k.history, k.alone) && !TurnedBack(resp)
    ensures Slurped(h0, k.history, k.pid, resp, id, path, codec)
    ensures k.alone && resp.Contents? ==>
              resp == Contents(id, path, SizeOf(seen), PermBits(seen.mode), codec.toBase64(seen.data[..SizeOf(seen)]))
    ensures k.faults >= old(k.faults) && (k.alone && k.faults == old(k.faults) ==> resp.Contents?)
    ensures MadeAs(old(k.calls), k.calls, k.creds)
  {
    hide Reader, IsRun, Valid, Began, Extends, LooksOn;
    var fd;
    ghost var snap;
    fd, snap := OpenStatted(k, path, seen, h0);
    if fd.None? {
      AtRest(k, h0, Slurper(path, RFailed));
      return Failed(id, SystemError);
    }
    var buf := Slurping(k, path, fd.value, seen, snap, h0);
    if buf.None? {
      return Failed(id, SystemError);
    }
    resp := Contents(id, path, |buf.value|, PermBits(seen.mode), codec.toBase64(buf.value));
  }

  /** The read loop: up to the size stat saw, or to the end of the file, or an error. */
  method Slurping(k: Process, path: Text, ino: nat, seen: Inode, ghost snap: Inode, ghost h0: Run)
    returns (buf: Option<Text>)
    requires Reader(k, h0, Slurper(path, RReading(seen, ino, snap, []))) && (k.alone ==> seen == snap)
    modifies k`calls, k`faults, k`fs, k`history
    ensures k.faults >= old(k.faults) && (buf.None? ==> k.faults > old(k.faults))
    ensures k.InStep() && IsIdle(k.history, k.pid) && LooksOn(h0, k.history, k.alone)
    ensures buf.Some? ==>
              && Doing(k.history, k.pid) == Some(Slurper(path, RDone(seen, snap, buf.value)))
              && Began(k.history, k.pid) == |h0.events| + 1
              && (k.alone ==> buf.value == snap.data[..SizeOf(seen)])
    ensures MadeAs(old(k.calls), k.calls, k.creds)
  {
    hide ReadsAt, Interlude, IsRun, Valid, Began, Extends;
    var got: Text, size := [], SizeOf(seen);
    while |got| < size
      invariant |got| <= size && k.faults >= old(k.faults) && MadeAs(old(k.calls), k.calls, k.creds)
      invariant Reader(k, h0, Slurper(path, RReading(seen, ino, snap, got)))
      invariant k.alone ==> got == snap.data[..|got|]
      decreases size - |got|
    {
      ghost var before, p := k.history, Slurper(path, RReading(seen, ino, snap, got));
      var r := k.Read(ino, |got|, size - |got|);
      Paused(k, h0, before, p);
      match r
      case ReadError =>
        AdvanceReader(k, h0, p, Slurper(path, RFailed));
        return None;
      case Got(data) =>
        if data == [] {
          AdvanceReader(k, h0, p, Slurper(path, RDone(seen, snap, got)));
          return Some(got);
        }
        AdvanceReader(k, h0, p, Slurper(path, RReading(seen, ino, snap, got + data)));
        got := got + data;
    }
    AdvanceReader(k, h0, Slurper(path, RReading(seen, ino, snap, got)), Slurper(path, RDone(seen, snap, got)));
    buf := Some(got);
  }

  /** get_file's reply to what it did: the header says what fstat saw, and the body is what was read; it is short
      exactly if a read failed or, with others at the file, found less than there was. */
  ghost predicate Sent(h0: Run, h: Run, pid: nat, r: Reply, id: real, path: Text, readFailed: bool, faulty: bool) {
    if r.resp.Sending? then
      && r.resp.id == id && r.resp.path == path && |r.body| <= r.resp.bytes && (readFailed <==> |r.body| < r.resp.bytes)
      && Doing(h, pid).Some? && Doing(h, pid).value.Getter? && Doing(h, pid).value.path == path
      && Began(h, pid) == |h0.events| + 1
      && var g := Doing(h, pid).value.get;
         if readFailed then (g.GShort? || (g.GFailed? && faulty))
         else g.GDone? && r.body == g.sent && r.resp == Sending(id, path, |g.stat.data|, PermBits(g.stat.mode))
    else r.resp.Failed? && r.resp.id == id && r.body == [] && !readFailed
  }

  /** get_file's reply in quiet: a header for the file its path names, and the file's bytes after it, or one error
      line. Only a read that failed part-way leaves the body short of what the header promised. */
  predicate GetAnswer(r: Reply, id: real, path: Text, node: Option<Inode>, readFailed: bool) {
    if r.resp.Sending? then
      && node.Some? && node.value.kind == Regular
      && r.resp == Sending(id, path, |node.value.data|, PermBits(node.value.mode))
      && r.body <= node.value.data && (readFailed <==> r.body != node.value.data)
    else r.resp.Failed? && r.resp.id == id && r.body == [] && !readFailed
  }

  lemma StillSent(h0: Run, h: Run, pid: nat, r: Reply, id: real, path: Text, readFailed: bool, faulty: bool)
    ensures Sent(h0, h, pid, r, id, path, readFailed, faulty) ==> Sent(h0, h, pid, r, id, path, readFailed, true)
  {
  }

  method GetFileAs(id: real, path: Text, conn: Socket, k: Process) returns (rc: Rc, readFailed: bool)
    requires k.InStep() && IsIdle(k.history, k.pid) && conn.Tracks()
    modifies conn`output, conn`replies, conn`broken, k`calls, k`faults, k`fs, k`history
    ensures k.InStep() && IsIdle(k.history, k.pid) && LooksOn(old(k.history), k.history, k.alone)
    ensures conn.Tracks() && (old(conn.broken) ==> conn.broken) && rc != NotStreaming
    ensures rc == Continue ==>
              && conn.broken == old(conn.broken) && OneMoreReply(old(conn.replies), conn.replies)
              && var r, node := conn.replies[|old(conn.replies)|], Lookup(old(k.fs), Name(path));
                 && Sent(old(k.history), k.history, k.pid, r, id, path, readFailed, k.faults > old(k.faults))
                 && (k.alone ==> GetAnswer(r, id, path, node, readFailed)) && !TurnedBack(r.resp)
                 && (k.alone && k.faults == old(k.faults) ==>
                       r.resp.Sending? == IsFile(node) && NoFile(r.resp, id, node))
    ensures rc != Continue ==> conn.broken && LateReply(old(conn.replies), conn.replies, id) && !readFailed
    ensures k.faults >= old(k.faults) && (k.alone && readFailed ==> k.faults > old(k.faults))
    ensures MadeAs(old(k.calls), k.calls, k.creds)
  {
    hide Encode, ReadsAt, Interlude, IsRun, Valid, Began, Extends;
    readFailed := false;
    ghost var h0, p := k.history, Getter(path, GReady);
    BeginReader(k, p);
    ghost var before := k.history;
    var fd := k.OpenRead(path);
    Paused(k, h0, before, p);
    if fd.None? {
      AdvanceReader(k, h0, p, Getter(path, GFailed));
      var sent := conn.SendLine(Failed(id, SystemError));
      return if sent then Continue else Threw, false;
    }
    ghost var snap := k.fs.inodes[fd.value];
    AdvanceReader(k, h0, p, Getter(path, GOpened(fd.value, snap)));
    rc, readFailed := SendOpened(id, path, fd.value, conn, k, snap, h0);
  }

  /** fstat of what was opened; anything but a regular file is the end of it. */
  method StatOpened(k: Process, path: Text, ino: nat, ghost snap: Inode, ghost h0: Run) returns (st: Option<Inode>)
    requires Reader(k, h0, Getter(path, GOpened(ino, snap)))
    modifies k`calls, k`faults, k`fs, k`history
    ensures st.Some? ==> Reader(k, h0, Getter(path, GSending(ino, snap, st.value, [])))
    ensures st.None? ==> Reader(k, h0, Getter(path, GFailed)) && IsIdle(k.history, k.pid)
    ensures k.faults >= old(k.faults) && k.calls == old(k.calls) + [k.creds]
    ensures k.alone ==> if st.Some? then st.value == snap && snap.kind == Regular
                        else k.faults > old(k.faults) || snap.kind != Regular
  {
    hide ReadsAt, Interlude, IsRun, Valid, Began, Extends, LooksOn;
    ghost var p, before := Getter(path, GOpened(ino, snap)), k.history;
    st := k.Fstat(ino);
    Paused(k, h0, before, p);
    if st.Some? && st.value.kind != Regular {
      st := None;
    }
    AdvanceReader(k, h0, p, Getter(path, if st.Some? then GSending(ino, snap, st.value, []) else GFailed));
  }

  lemma AtRest(k: Process, h0: Run, p: Proc)
    requires Reader(k, h0, p)
    ensures k.InStep() && LooksOn(h0, k.history, k.alone)
  {
  }

  /** fstat, the header, and the file after it. */
  method SendOpened(id: real, path: Text, ino: nat, conn: Socket, k: Process, ghost snap: Inode, ghost h0: Run)
    returns (rc: Rc, readFailed: bool)
    requires conn.Tracks() && Reader(k, h0, Getter(path, GOpened(ino, snap)))
    modifies conn`output, conn`replies, conn`broken, k`calls, k`faults, k`fs, k`history
    ensures k.InStep() && IsIdle(k.history, k.pid) && LooksOn(h0, k.history, k.alone)
    ensures conn.Tracks() && (old(conn.broken) ==> conn.broken) && rc != NotStreaming
    ensures rc == Continue ==>
              && conn.broken == old(conn.broken) && OneMoreReply(old(conn.replies), conn.replies)
              && var r := conn.replies[|old(conn.replies)|];
                 && Sent(h0, k.history, k.pid, r, id, path, readFailed, k.faults > old(k.faults))
                 && (k.alone ==> GetAnswer(r, id, path, Some(snap), readFailed)) && !TurnedBack(r.resp)
                 && (k.alone && k.faults == old(k.faults) ==>
                       r.resp.Sending? == IsFile(Some(snap)) && NoFile(r.resp, id, Some(snap)))
    ensures rc != Continue ==> conn.broken && LateReply(old(conn.replies), conn.replies, id) && !readFailed
    ensures k.faults >= old(k.faults) && (k.alone && readFailed ==> k.faults > old(k.faults))
    ensures MadeAs(old(k.calls), k.calls, k.creds)
  {
    hide Encode, Reader, Moves, IsRun, Valid, Began, Extends, LooksOn;
    var st := StatOpened(k, path, ino, snap, h0);
    if st.None? {
      AtRest(k, h0, Getter(path, GFailed));
      var sent := conn.SendLine(Failed(id, NotAFile));
      return if sent then Continue else Threw, false;
    }
    var stat := st.value;
    var header := Sending(id, path, |stat.data|, PermBits(stat.mode));
    var sent := conn.SendLine(header);
    if !sent {
      Finish(k, h0, path, GSending(ino, snap, stat, []), GFailed);
      return MustClose, false;
    }
    var alive;
    alive, readFailed := SendFile(conn, k, path, ino, stat, header, snap, h0);
    rc := if alive then Continue else MustClose;
  }

  /** What became of the body of a file that was to be sent. */
  ghost predicate SentBody(h0: Run, h: Run, pid: nat, path: Text, stat: Inode, body: Text, readFailed: bool,
                           faulty: bool) {
    && Doing(h, pid).Some? && Doing(h, pid).value.Getter? && Doing(h, pid).value.path == path
    && Began(h, pid) == |h0.events| + 1 && |body| <= |stat.data| && (readFailed <==> |body| < |stat.data|)
    && var g := Doing(h, pid).value.get;
       if readFailed then g.GShort? || (g.GFailed? && faulty) else g.GDone? && g.sent == body && g.stat == stat
  }

  lemma BodyIs(k: Process, h0: Run, path: Text, end: Get, stat: Inode, body: Text, readFailed: bool, faulty: bool)
    requires Reader(k, h0, Getter(path, end)) && |body| <= |stat.data| && (readFailed <==> |body| < |stat.data|)
    requires if readFailed then end.GShort? || (end.GFailed? && faulty)
             else end.GDone? && end.sent == body && end.stat == stat
    ensures SentBody(h0, k.history, k.pid, path, stat, body, readFailed, faulty)
    ensures k.InStep() && IsIdle(k.history, k.pid) && LooksOn(h0, k.history, k.alone)
  {
    hide IsRun, Began;
  }

  /** The next bytes of the file, if there are any; nothing is lost by reading them. */
  method ReadOn(k: Process, path: Text, ino: nat, stat: Inode, off: nat, ghost snap: Inode, ghost h0: Run,
                ghost sent: Text)
    returns (r: ReadResult)
    requires off == |sent| < |stat.data|
    requires Reader(k, h0, Getter(path, GSending(ino, snap, stat, sent)))
    modifies k`calls, k`faults, k`fs, k`history
    ensures k.faults >= old(k.faults) && (r.ReadError? ==> k.faults > old(k.faults))
    ensures Reader(k, h0, if r.ReadError? then Getter(path, GFailed)
                          else if r.data == [] then Getter(path, GShort(snap, stat, sent))
                          else Getter(path, GSending(ino, snap, stat, sent + r.data)))
    ensures r.ReadError? || r.data == [] ==> IsIdle(k.history, k.pid)
    ensures r.Got? ==> off + |r.data| <= |stat.data|
                       && (k.alone ==> r.data != [] && r.data == stat.data[off..off + |r.data|])
    ensures k.calls == old(k.calls) + [k.creds]
  {
    hide ReadsAt, Interlude, IsRun, Valid, Began, Extends, LooksOn;
    ghost var before, p := k.history, Getter(path, GSending(ino, snap, stat, sent));
    r := k.Read(ino, off, Min(|stat.data| - off, CHUNK));
    Paused(k, h0, before, p);
    AdvanceReader(k, h0, p, if r.ReadError? then Getter(path, GFailed)
                            else if r.data == [] then Getter(path, GShort(snap, stat, sent))
                            else Getter(path, GSending(ino, snap, stat, sent + r.data)));
  }

  /** The file after its header, a buffer at a time, until it is out or a read fails. */
  method SendFile(conn: Socket, k: Process, path: Text, ino: nat, stat: Inode, ghost header: Response,
                  ghost snap: Inode, ghost h0: Run)
    returns (alive: bool, readFailed: bool)
    requires conn.Tracks() && conn.replies != [] && conn.replies[|conn.replies| - 1] == Reply(header, [])
    requires Reader(k, h0, Getter(path, GSending(ino, snap, stat, [])))
    modifies conn`output, conn`replies, conn`broken, k`calls, k`faults, k`fs, k`history
    ensures k.InStep() && IsIdle(k.history, k.pid) && LooksOn(h0, k.history, k.alone)
    ensures conn.Tracks() && (old(conn.broken) ==> conn.broken)
    ensures alive ==> conn.broken == old(conn.broken)
    ensures !alive ==> conn.broken && !readFailed
    ensures |conn.replies| == |old(conn.replies)|
            && conn.replies[..|conn.replies| - 1] == old(conn.replies)[..|conn.replies| - 1]
    ensures var last := conn.replies[|conn.replies| - 1];
            && last.resp == header && (k.alone ==> last.body <= stat.data)
            && (alive ==> SentBody(h0, k.history, k.pid, path, stat, last.body, readFailed, k.faults > old(k.faults)))
    ensures k.faults >= old(k.faults) && (k.alone && readFailed ==> k.faults > old(k.faults))
    ensures MadeAs(old(k.calls), k.calls, k.creds)
  {
    hide Encode, Reader, SentBody, Moves, Valid;
    readFailed := false;
    var remaining := |stat.data|;
    ghost var front := conn.replies[..|conn.replies| - 1];
    ghost var body: Text := [];
    while remaining > 0
      invariant 0 <= remaining <= |stat.data| && |body| == |stat.data| - remaining
      invariant conn.Tracks() && conn.broken == old(conn.broken) && k.faults >= old(k.faults)
      invariant conn.replies == front + [Reply(header, body)] && (k.alone ==> body == stat.data[..|body|])
      invariant Reader(k, h0, Getter(path, GSending(ino, snap, stat, body)))
      invariant MadeAs(old(k.calls), k.calls, k.creds)
      decreases remaining
    {
      var r := ReadOn(k, path, ino, stat, |stat.data| - remaining, snap, h0, body);
      if r.ReadError? || r.data == [] {
        BodyIs(k, h0, path, if r.ReadError? then GFailed else GShort(snap, stat, body), stat, body, true,
               k.faults > old(k.faults));
        return true, true;
      }
      var sent := conn.SendBody(r.data);
      body := body + r.data;
      if !sent {
        Finish(k, h0, path, GSending(ino, snap, stat, body), GFailed);
        return false, false;
      }
      remaining := remaining - |r.data|;
    }
    Finish(k, h0, path, GSending(ino, snap, stat, body), GDone(snap, stat, body));
    BodyIs(k, h0, path, GDone(snap, stat, body), stat, body, false, k.faults > old(k.faults));
    alive := true;
  }

  /** The last step of a reader. */
  ghost method Finish(k: Process, h0: Run, path: Text, g: Get, end: Get)
    requires Reader(k, h0, Getter(path, g)) && GetStep(path, k.fs, g, end) && Over(Getter(path, end))
    modifies k`history
    ensures Reader(k, h0, Getter(path, end)) && k.InStep() && IsIdle(k.history, k.pid)
            && LooksOn(h0, k.history, k.alone)
  {
    hide IsRun, Began, Valid, ReadsAt;
    AdvanceReader(k, h0, Getter(path, g), Getter(path, end));
  }
}
