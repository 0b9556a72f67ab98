/** The two readers of the agent as the sequences of system calls they make: get_file, which opens and then
    sizes the open descriptor, and read_file, which sizes the name and then opens it. */
module ReaderProtocol {
  import opened Base
  import opened FileSystem

  const WORD32: nat := 0x1_0000_0000

  /** get_file: open, fstat, then read and send until as many bytes are out as fstat said. `snap` is the inode as
      opened, `stat` as fstat saw it. */
  datatype Get =
    | GReady
    | GOpened(ino: nat, snap: Inode)
    | GSending(ino: nat, snap: Inode, stat: Inode, sent: Text)
    | GDone(snap: Inode, stat: Inode, sent: Text)
    | GShort(snap: Inode, stat: Inode, sent: Text)         // a read found nothing left before the size
    | GFailed

  /** read_file: stat by path, then open, then read up to the size stat saw. `seen` is the inode at the stat, `snap`
      at the open. */
  datatype Slurp =
    | RReady
    | RStatted(seen: Inode)
    | RReading(seen: Inode, ino: nat, snap: Inode, got: Text)
    | RDone(seen: Inode, snap: Inode, got: Text)
    | RFailed

  /** The size read_file works with is an unsigned int. */
  function SizeOf(seen: Inode): nat {
    |seen.data| % WORD32
  }

  predicate GetStep(path: Text, fs: Fs, g: Get, g': Get) {
    match g
    case GReady =>
      || g' == GFailed
      || (Lookup(fs, Name(path)).Some? && g' == GOpened(fs.dir[Name(path)], Lookup(fs, Name(path)).value))
    case GOpened(ino, snap) =>
      || g' == GFailed
      || (ino in fs.inodes && fs.inodes[ino].kind == Regular && g' == GSending(ino, snap, fs.inodes[ino], []))
    case GSending(ino, snap, stat, sent) =>
      || g' == GFailed
      || (|sent| >= |stat.data| && g' == GDone(snap, stat, sent))
      || (|sent| < |stat.data| && ino in fs.inodes && |sent| >= |fs.inodes[ino].data| && g' == GShort(snap, stat, sent))
      || (|sent| < |stat.data| && ino in fs.inodes && g'.GSending? && g' == GSending(ino, snap, stat, g'.sent)
          && IsRead(fs.inodes[ino].data, sent, Min(|stat.data| - |sent|, CHUNK), g'.sent))
    case _ => false
  }

  /** read() returns some of the file from the current offset on, at least one byte and at most `want`. */
  predicate IsRead(data: Text, got: Text, want: nat, got': Text) {
    && |got| < |got'| <= |got| + want && |got'| <= |data|
    && got' == got + data[|got|..|got'|]
  }

  predicate SlurpStep(path: Text, fs: Fs, r: Slurp, r': Slurp) {
    match r
    case RReady =>
      || r' == RFailed
      || (Lookup(fs, Name(path)).Some? && Lookup(fs, Name(path)).value.kind == Regular
          && r' == RStatted(Lookup(fs, Name(path)).value))
    case RStatted(seen) =>
      || r' == RFailed
      || (Lookup(fs, Name(path)).Some? && r' == RReading(seen, fs.dir[Name(path)], Lookup(fs, Name(path)).value, []))
    case RReading(seen, ino, snap, got) =>
      || r' == RFailed
      || (ino in fs.inodes && (|got| >= SizeOf(seen) || |got| >= |fs.inodes[ino].data|) && r' == RDone(seen, snap, got))
      || (ino in fs.inodes && |got| < SizeOf(seen) && r'.RReading? && r' == RReading(seen, ino, snap, r'.got)
          && IsRead(fs.inodes[ino].data, got, SizeOf(seen) - |got|, r'.got))
    case _ => false
  }
}
