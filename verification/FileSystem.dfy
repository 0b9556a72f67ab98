/** The file system as the agent's system calls see it: directory entries that name inodes.
    An open descriptor is an inode number, so it survives a rename or an unlink of the name. */
module FileSystem {
  import opened Base

  type Path = Text

  /** The name a system call gets: a path is handed over as a C string. */
  function Name(p: Text): (name: Path)
    ensures '\0' !in name && ('\0' !in p ==> name == p)
  {
    CString(p)
  }

  datatype Kind = Regular | Directory | Device

  datatype Inode = Inode(kind: Kind, data: Text, mode: nat, uid: int, gid: int)

  datatype Fs = Fs(dir: map<Path, nat>, inodes: map<nat, Inode>, next: nat)

  predicate Valid(fs: Fs) {
    && (forall p :: p in fs.dir ==> fs.dir[p] in fs.inodes)
    && (forall i :: i in fs.inodes ==> i < fs.next)
  }

  function Lookup(fs: Fs, p: Path): Option<Inode> {
    if p in fs.dir && fs.dir[p] in fs.inodes then Some(fs.inodes[fs.dir[p]]) else None
  }

  /** What lstat() needs is a name; what opendir() needs is a directory. */
  predicate Shows(fs: Fs, p: Text, listing: bool) {
    Lookup(fs, Name(p)).Some? && (listing ==> Lookup(fs, Name(p)).value.kind == Directory)
  }

  predicate MayRename(fs: Fs, from: Path, to: Path) {
    from in fs.dir && (Lookup(fs, to).Some? ==> Lookup(fs, to).value.kind != Directory)
  }

  /** open( p, O_WRONLY | O_CREAT | O_EXCL | O_TRUNC, 0600 ) where no entry `p` exists */
  function Create(fs: Fs, p: Path, uid: int, gid: int): Fs {
    Fs(fs.dir[p := fs.next], fs.inodes[fs.next := Inode(Regular, [], 384, uid, gid)], fs.next + 1)
  }

  function SetInode(fs: Fs, ino: nat, node: Inode): Fs {
    fs.(inodes := fs.inodes[ino := node])
  }

  /** write() at the end of what the descriptor has written so far */
  function Append(fs: Fs, ino: nat, data: Text): Fs
    requires ino in fs.inodes
  {
    SetInode(fs, ino, fs.inodes[ino].(data := fs.inodes[ino].data + data))
  }

  /** fchown(): changing the owner clears the setuid and setgid bits */
  function Chown(fs: Fs, ino: nat, uid: int, gid: int): Fs
    requires ino in fs.inodes
  {
    SetInode(fs, ino, fs.inodes[ino].(uid := uid, gid := gid, mode := fs.inodes[ino].mode % 1024))
  }

  function Chmod(fs: Fs, ino: nat, mode: nat): Fs
    requires ino in fs.inodes
  {
    SetInode(fs, ino, fs.inodes[ino].(mode := mode))
  }

  /** rename(): the target entry is replaced in one step; its old inode stays, unnamed */
  function Rename(fs: Fs, from: Path, to: Path): Fs
    requires from in fs.dir
  {
    fs.(dir := (fs.dir - {from})[to := fs.dir[from]])
  }

  function Unlink(fs: Fs, p: Path): Fs {
    fs.(dir := fs.dir - {p})
  }

  /** Nothing that existed in `fs` is different in `fs'`: no entry, and no inode. */
  ghost predicate Untouched(fs: Fs, fs': Fs) {
    && fs'.dir == fs.dir
    && (forall i :: i in fs.inodes ==> i in fs'.inodes && fs'.inodes[i] == fs.inodes[i])
  }
}
