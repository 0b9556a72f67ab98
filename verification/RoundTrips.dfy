/** Verbs together, with nothing else at the files: the streaming upload against the whole-buffer write, and what a
    client reads back. */
module RoundTrips {
  import opened Base
  import opened FileSystem
  import opened WriterProtocol
  import opened ReaderProtocol
  import opened Concurrency
  import opened Framing
  import opened Connection
  import opened Kernel
  import opened Requests
  import opened Writes
  import opened FileVerbs

  /** The two requests ask for the same write: same target, mode and user, and the streamed body is what
      the base64 content decodes to. */
  predicate SameWrite(put: Request, write: Request, input: Text, codec: Codec) {
    && PutBytes(put).Some? && PutBytes(put).value <= |input|
    && FindText(write, "content").Some?
    && codec.fromBase64(FindText(write, "content").value) == input[..PutBytes(put).value]
    && FindText(put, "path") == FindText(write, "path") && ModeOf(put) == ModeOf(write)
    && FindText(put, "user") == FindText(write, "user")
  }

  ghost predicate Twins(a: Process, b: Process)
    reads a, b
  {
    && a.alone && b.alone && a.pid == b.pid && a.passwd == b.passwd && a.fs == b.fs && a.creds == b.creds
        && a.validIds == b.validIds
    && a.Ready() && b.Ready()
  }

  ghost predicate Names(fs: Fs, path: Path, data: Text) {
    Lookup(fs, path).Some? && Lookup(fs, path).value.data == data
  }

  /** Chunked or whole, however the kernel splits the writes: from the same state the same write has the same
      outcome if no call fails, the same files and result if that is success, and nothing but an error answer if it is
      not; and the same files and result whenever both succeed, having seen the same target. */
  method StreamingRefinesWhole(id: real, put: Request, write: Request, conn: Socket, a: Process, b: Process)
    returns (rc: Rc, resp: Response, ghost wa: WriterLog, ghost wb: WriterLog)
    requires a != b && Twins(a, b) && conn.Tracks() && SameWrite(put, write, conn.input, conn.codec)
    modifies conn, a`fs, a`calls, a`faults, a`creds, a`history, b`fs, b`calls, b`faults, b`creds, b`history
    ensures rc == Continue ==> |conn.replies| == |old(conn.replies)| + 1
    ensures rc == Continue && a.faults == old(a.faults) && b.faults == old(b.faults) ==>
              && wa.ok == wb.ok
              && (wa.ok ==> a.fs == b.fs && conn.replies[|conn.replies| - 1].resp == resp)
              && (!wa.ok ==> Untouched(old(a.fs), a.fs) && Untouched(old(b.fs), b.fs)
                             && conn.replies[|conn.replies| - 1].resp.Failed? && resp.Failed?)
    ensures rc == Continue && wa.ok && wb.ok && wa.seen == wb.seen ==>
              a.fs == b.fs && conn.replies[|conn.replies| - 1].resp == resp
    ensures wa.ok ==> Names(a.fs, Name(PathOf(put)), old(conn.input)[..PutBytes(put).value])
    ensures wb.ok ==> Names(b.fs, Name(PathOf(put)), old(conn.input)[..PutBytes(put).value])
  {
    hide Scoped, Wrought, Encode, Installed, Lookup, FinalMode, Names, CanWrite, Untouched, TurnedBack, IsRun, Began;
    rc, wa := PutFile(id, put, conn, a);
    resp, wb := WriteFile(id, write, b, conn.codec);
    ghost var j := JobOf(a.pid, put, old(conn.input)[..PutBytes(put).value], PrincipalOf(a.passwd, put), old(a.creds));
    QuietWrite(j, old(a.history), a.history, wa);
    QuietWrite(j, old(b.history), b.history, wb);
  }

  /** What a write has come to when nothing else was at the files. */
  lemma QuietWrite(j: Job, h0: Run, h: Run, w: WriterLog)
    requires Wrought(h0, h, true, j, w)
    ensures if w.ok then h.Last().fs == Installed(j, h0.Last().fs, w.seen) && Names(h.Last().fs, Target(j), j.payload)
            else Untouched(h0.Last().fs, h.Last().fs)
  {
  }

  /** May the process serve these two requests one after the other, and is the first a write that can be made? */
  predicate CanBoth(k: Process, write: Request, payload: Text, read: Request, own: Creds, fs: Fs) {
    && MayRunAs(PrincipalOf(k.passwd, write), own, k.validIds) && MayRunAs(PrincipalOf(k.passwd, read), own, k.validIds)
    && CanWrite(JobOf(k.pid, write, payload, PrincipalOf(k.passwd, write), own), fs)
  }

  /** An upload, then a download of the same name in quiet: the client gets its bytes back whenever the download
      answers with a file and no read of it failed; and it does so if no call fails, both users may be run as, and
      the target and the temp name allow the upload. */
  method PutThenGet(id: real, put: Request, get: Request, conn: Socket, k: Process)
    returns (rc: Rc, readFailed: bool, ghost w: WriterLog)
    requires k.Ready() && k.alone && conn.Tracks()
    requires PutBytes(put).Some? && FindText(get, "path") == FindText(put, "path")
    modifies conn, k`fs, k`calls, k`faults, k`creds, k`history
    ensures rc == Continue ==> |conn.replies| == |old(conn.replies)| + 2 && PutBytes(put).value <= |old(conn.input)|
    ensures rc == Continue && w.ok && conn.replies[|conn.replies| - 1].resp.Sending? && !readFailed ==>
              conn.replies[|conn.replies| - 1].body == old(conn.input)[..PutBytes(put).value]
    ensures rc == Continue && k.faults == old(k.faults)
            && CanBoth(k, put, old(conn.input)[..PutBytes(put).value], get, old(k.creds), old(k.fs)) ==>
              && conn.replies[|conn.replies| - 1].resp.Sending?
              && conn.replies[|conn.replies| - 1].body == old(conn.input)[..PutBytes(put).value]
  {
    hide Wrought, Encode, Valid, CanWrite, AllActFor, IsRun, Began;
    readFailed := false;
    rc, w := PutFile(id, put, conn, k);
    ghost var j := JobOf(k.pid, put, BodyOf(old(conn.input), PutBytes(put).value), PrincipalOf(k.passwd, put),
                         old(k.creds));
    QuietWrite(j, old(k.history), k.history, w);
    assert k.creds.euid == old(k.creds).euid;
    if rc == Continue {
      rc, readFailed := GetFile(id, get, conn, k);
    }
  }

  /** A write, then read_file of the same name in quiet: the content decodes to what was written exactly when its
      length fits the 32-bit size read_file works with; and there is content to decode if no call fails, both users
      may be run as, and the target and the temp name allow the write. */
  method WriteThenRead(id: real, write: Request, read: Request, k: Process, codec: Codec)
    returns (wrote: Response, resp: Response, ghost w: WriterLog)
    requires k.Ready() && k.alone && Base64Inverts(codec)
    requires HasWriteFields(write) && FindText(read, "path") == FindText(write, "path")
    modifies k`fs, k`calls, k`faults, k`creds, k`history
    ensures var data := codec.fromBase64(FindText(write, "content").value);
            && (w.ok && resp.Contents? ==> (codec.fromBase64(resp.content) == data <==> |data| < 4294967296))
            && (k.faults == old(k.faults) && CanBoth(k, write, data, read, old(k.creds), old(k.fs)) ==>
                  w.ok && resp.Contents?)
  {
    hide Wrought, Valid, CanWrite, AllActFor, IsRun, Began;
    wrote, w := WriteFile(id, write, k, codec);
    ghost var data := codec.fromBase64(FindText(write, "content").value);
    ghost var j := JobOf(k.pid, write, data, PrincipalOf(k.passwd, write), old(k.creds));
    QuietWrite(j, old(k.history), k.history, w);
    assert k.creds.euid == old(k.creds).euid;
    resp := ReadFile(id, read, k, codec);
    CutIsWhole(codec.fromBase64(FindText(write, "content").value));
  }

  lemma CutIsWhole(data: Text)
    ensures data[..|data| % WORD32] == data <==> |data| < WORD32
  {
    if |data| < WORD32 {
      assert data[..|data|] == data;
    }
  }
}
