/**
 tmpfs (src/tmpfs.rs): a bounded in-memory filesystem whose tree is encoded in the path strings of one
 flat map. Bytes of paths are modelled as characters. Every call holds the one lock, so it is one step.
 */
module TmpfsModel {
  import opened Wrappers

  const CAP := 4 * 1024 * 1024
  const TMPFS_FD_BASE := 4000
  const MAX_OPEN := 256

  const EPERM := -1
  const ENOENT := -2
  const EBADF := -9
  const EEXIST := -17
  const ENOTDIR := -20
  const EISDIR := -21
  const EINVAL := -22
  const EMFILE := -24
  const ENOSPC := -28
  const ENOTEMPTY := -39

  type Path = string
  type Bytes = seq<bv8>

  datatype Node = Node(isDir: bool, data: Bytes, mode: nat)

  datatype OpenFd = OpenFd(fd: int, path: Path, pos: nat, append: bool, writable: bool, isDir: bool)

  datatype Fs = Fs(nodes: map<Path, Node>, total: int, open: seq<OpenFd>, nextFd: int)

  datatype Flags = Flags(write: bool, creat: bool, excl: bool, trunc: bool, append: bool, directory: bool)

  // ---------- Paths ----------

  function StripSlashes(v: Path): (r: Path)
    ensures r <= v && (v != [] ==> r != [])
  {
    if |v| > 1 && v[|v| - 1] == '/' then StripSlashes(v[..|v| - 1]) else v
  }

  function Rooted(path: Path): Path {
    var p := if "./" <= path then path[1..] else path;
    if "/" <= p then p else "/" + p
  }

  function Norm(path: Path): Path { StripSlashes(Rooted(path)) }

  function LastSlash(p: Path): (i: int)
    ensures -1 <= i < |p| && (i >= 0 ==> p[i] == '/')
  {
    if p == [] then -1 else if p[|p| - 1] == '/' then |p| - 1 else LastSlash(p[..|p| - 1])
  }

  function Parent(p: Path): Path {
    var i := LastSlash(p);
    if i <= 0 then "/" else p[..i]
  }

  predicate IsRoot(p: Path) { p == "/tmp" || p == "/dev/shm" }

  predicate Under(dir: Path, p: Path) { dir + "/" <= p }

  predicate HasChildren(nodes: map<Path, Node>, dir: Path) {
    exists k :: k in nodes && Under(dir, k)
  }

  // ---------- File contents ----------

  function Zeroes(n: nat): (r: Bytes)
    ensures |r| == n && forall i :: 0 <= i < n ==> r[i] == 0
  {
    seq(n, _ => 0)
  }

  function Resize(data: Bytes, len: nat): (r: Bytes)
    ensures |r| == len
  {
    if len <= |data| then data[..len] else data + Zeroes(len - |data|)
  }

  function MinusSat(a: int, b: int): nat { if a > b then a - b else 0 }

  /** How many of `count` bytes a write at `at` may take. */
  function Fits(len: nat, total: int, at: nat, count: nat): nat {
    var allowed := MinusSat(CAP, total);
    var maxN := if at >= len then MinusSat(allowed, at - len) else (len - at) + allowed;
    if count < maxN then count else maxN
  }

  /** The contents after `buf` is written at `at`: a gap is filled with zeroes. */
  function Patch(data: Bytes, at: nat, buf: Bytes): (r: Bytes)
    ensures |r| == if at + |buf| > |data| then at + |buf| else |data|
  {
    var d := if at + |buf| > |data| then Resize(data, at + |buf|) else data;
    d[..at] + buf + d[at + |buf|..]
  }

  function WriteAt(fs: Fs, path: Path, at: nat, buf: Bytes): (Fs, int) {
    if path !in fs.nodes then (fs, ENOENT)
    else if fs.nodes[path].isDir then (fs, EISDIR)
    else if buf == [] then (fs, 0)
    else
      var data := fs.nodes[path].data;
      var n := Fits(|data|, fs.total, at, |buf|);
      if n == 0 then (fs, ENOSPC)
      else
        var data' := Patch(data, at, buf[..n]);
        (fs.(nodes := fs.nodes[path := fs.nodes[path].(data := data')], total := fs.total + |data'| - |data|), n)
  }

  function ReadAt(data: Bytes, at: nat, count: nat): Bytes {
    if at >= |data| then [] else if count < |data| - at then data[at..at + count] else data[at..]
  }

  function ResizePath(fs: Fs, path: Path, len: nat): (Fs, int) {
    if path !in fs.nodes then (fs, ENOENT)
    else if fs.nodes[path].isDir then (fs, EISDIR)
    else
      var data := fs.nodes[path].data;
      if len > |data| && fs.total + (len - |data|) > CAP then (fs, ENOSPC)
      else
        (fs.(nodes := fs.nodes[path := fs.nodes[path].(data := Resize(data, len))],
             total := fs.total + len - |data|), 0)
  }

  // ---------- Open files ----------

  function FindFd(open: seq<OpenFd>, fd: int, k: nat): (i: nat)
    requires k <= |open|
    ensures k <= i <= |open| && (i < |open| ==> open[i].fd == fd)
    decreases |open| - k
  {
    if k == |open| || open[k].fd == fd then k else FindFd(open, fd, k + 1)
  }

  function AddFd(fs: Fs, o: OpenFd): (Fs, int) {
    (fs.(open := fs.open + [o.(fd := fs.nextFd)], nextFd := fs.nextFd + 1), fs.nextFd)
  }

  function Perm(mode: nat, def: nat): nat { if mode % 0x1000 == 0 then def else mode % 0x1000 }

  function OpenExisting(fs: Fs, n: Path, flags: Flags): (Fs, int)
    requires n in fs.nodes
  {
    if flags.creat && flags.excl then (fs, EEXIST)
    else if fs.nodes[n].isDir then
      if flags.write then (fs, EISDIR) else AddFd(fs, OpenFd(0, n, 0, false, false, true))
    else if flags.directory then (fs, ENOTDIR)
    else
      var fs' := if flags.trunc && flags.write
                 then fs.(nodes := fs.nodes[n := fs.nodes[n].(data := [])], total := fs.total - |fs.nodes[n].data|)
                 else fs;
      var pos := if flags.append then |fs'.nodes[n].data| else 0;
      AddFd(fs', OpenFd(0, n, pos, flags.append, flags.write, false))
  }

  /** Where a new entry may go: its parent must be a directory. */
  function ParentError(nodes: map<Path, Node>, n: Path): int {
    if Parent(n) !in nodes then ENOENT else if !nodes[Parent(n)].isDir then ENOTDIR else 0
  }

  function Open(fs: Fs, path: Path, flags: Flags, mode: nat): (Fs, int) {
    var n := Norm(path);
    if |fs.open| >= MAX_OPEN then (fs, EMFILE)
    else if n in fs.nodes then OpenExisting(fs, n, flags)
    else if !flags.creat || flags.directory then (fs, ENOENT)
    else if ParentError(fs.nodes, n) != 0 then (fs, ParentError(fs.nodes, n))
    else AddFd(fs.(nodes := fs.nodes[n := Node(false, [], Perm(mode, 0x1A4))]), OpenFd(0, n, 0, false, true, false))
  }

  function Write(fs: Fs, fd: int, buf: Bytes): (Fs, int) {
    var i := FindFd(fs.open, fd, 0);
    if i == |fs.open| || !fs.open[i].writable || fs.open[i].isDir then (fs, EBADF)
    else
      var o := fs.open[i];
      var at := if !o.append then o.pos else if o.path in fs.nodes then |fs.nodes[o.path].data| else 0;
      var (fs', r) := WriteAt(fs, o.path, at, buf);
      if r > 0 then (fs'.(open := fs'.open[i := o.(pos := at + r)]), r) else (fs', r)
  }

  function Pwrite(fs: Fs, fd: int, buf: Bytes, at: nat): (Fs, int) {
    var i := FindFd(fs.open, fd, 0);
    if i == |fs.open| || !fs.open[i].writable || fs.open[i].isDir then (fs, EBADF)
    else WriteAt(fs, fs.open[i].path, at, buf)
  }

  /** The bytes read, or an error. */
  function Read(fs: Fs, fd: int, count: nat): (Fs, Result<Bytes, int>) {
    var i := FindFd(fs.open, fd, 0);
    if i == |fs.open| then (fs, Err(EBADF))
    else if fs.open[i].isDir then (fs, Err(EISDIR))
    else if fs.open[i].path !in fs.nodes then (fs, Err(EBADF))
    else
      var o := fs.open[i];
      var r := ReadAt(fs.nodes[o.path].data, o.pos, count);
      (fs.(open := fs.open[i := o.(pos := o.pos + |r|)]), Ok(r))
  }

  function Truncate(fs: Fs, path: Path, len: nat): (Fs, int) {
    if Norm(path) !in fs.nodes then (fs, ENOENT) else ResizePath(fs, Norm(path), len)
  }

  function Ftruncate(fs: Fs, fd: int, len: nat): (Fs, int) {
    var i := FindFd(fs.open, fd, 0);
    if i == |fs.open| then (fs, EBADF)
    else if fs.open[i].isDir then (fs, EISDIR)
    else ResizePath(fs, fs.open[i].path, len)
  }

  function Close(fs: Fs, fd: int): (Fs, int) {
    var i := FindFd(fs.open, fd, 0);
    if fd < TMPFS_FD_BASE || i == |fs.open| then (fs, EBADF)
    else (fs.(open := fs.open[..i] + fs.open[i + 1..]), 0)
  }

  // ---------- Names ----------

  function Unlink(fs: Fs, path: Path): (Fs, int) {
    var n := Norm(path);
    if n !in fs.nodes then (fs, ENOENT)
    else if fs.nodes[n].isDir then (fs, EISDIR)
    else (fs.(nodes := fs.nodes - {n}, total := fs.total - |fs.nodes[n].data|), 0)
  }

  /** The destination out of the way: a file gives its bytes back, a directory must be empty. */
  function ClearDest(fs: Fs, o: Path, n: Path): (Fs, int)
    requires o in fs.nodes
  {
    if n !in fs.nodes then (fs, 0)
    else if fs.nodes[n].isDir != fs.nodes[o].isDir then (fs, if fs.nodes[n].isDir then EISDIR else ENOTDIR)
    else if fs.nodes[n].isDir && HasChildren(fs.nodes, n) then (fs, ENOTEMPTY)
    else (fs.(nodes := fs.nodes - {n}, total := fs.total - if fs.nodes[n].isDir then 0 else |fs.nodes[n].data|), 0)
  }

  function Rename(fs: Fs, source: Path, dest: Path): (Fs, int) {
    var o, n := Norm(source), Norm(dest);
    if o == n then (fs, 0)
    else if o !in fs.nodes then (fs, ENOENT)
    else if ParentError(fs.nodes, n) != 0 then (fs, ParentError(fs.nodes, n))
    else
      var (fs', e) := ClearDest(fs, o, n);
      if e != 0 then (fs, e)
      else if fs.nodes[o].isDir && HasChildren(fs'.nodes, o) then (fs', EINVAL)
      else (fs'.(nodes := (fs'.nodes - {o})[n := fs.nodes[o]]), 0)
  }

  function Mkdir(fs: Fs, path: Path, mode: nat): (Fs, int) {
    var n := Norm(path);
    if n in fs.nodes then (fs, EEXIST)
    else if ParentError(fs.nodes, n) != 0 then (fs, ParentError(fs.nodes, n))
    else (fs.(nodes := fs.nodes[n := Node(true, [], Perm(mode, 0x1ED))]), 0)
  }

  function Rmdir(fs: Fs, path: Path): (Fs, int) {
    var n := Norm(path);
    if IsRoot(n) then (fs, EPERM)
    else if n !in fs.nodes then (fs, ENOENT)
    else if !fs.nodes[n].isDir then (fs, ENOTDIR)
    else if HasChildren(fs.nodes, n) then (fs, ENOTEMPTY)
    else (fs.(nodes := fs.nodes - {n}), 0)
  }

  // ---------- Calls ----------

  datatype Call =
    | CallOpen(path: Path, flags: Flags, mode: nat)
    | CallWrite(fd: int, buf: Bytes)
    | CallPwrite(fd: int, buf: Bytes, at: nat)
    | CallRead(fd: int, count: nat)
    | CallSeek(fd: int, pos: nat)
    | CallTruncate(path: Path, len: nat)
    | CallFtruncate(fd: int, len: nat)
    | CallClose(fd: int)
    | CallUnlink(path: Path)
    | CallRename(path: Path, dest: Path)
    | CallMkdir(path: Path, mode: nat)
    | CallRmdir(path: Path)

  /** A successful lseek leaves any offset. */
  function Seek(fs: Fs, fd: int, pos: nat): (Fs, int) {
    var i := FindFd(fs.open, fd, 0);
    if i == |fs.open| then (fs, EBADF) else (fs.(open := fs.open[i := fs.open[i].(pos := pos)]), pos)
  }

  function Apply(fs: Fs, call: Call): Fs {
    match call
    case CallOpen(path, flags, mode) => Open(fs, path, flags, mode).0
    case CallWrite(fd, buf) => Write(fs, fd, buf).0
    case CallPwrite(fd, buf, at) => Pwrite(fs, fd, buf, at).0
    case CallRead(fd, count) => Read(fs, fd, count).0
    case CallSeek(fd, pos) => Seek(fs, fd, pos).0
    case CallTruncate(path, len) => Truncate(fs, path, len).0
    case CallFtruncate(fd, len) => Ftruncate(fs, fd, len).0
    case CallClose(fd) => Close(fs, fd).0
    case CallUnlink(path) => Unlink(fs, path).0
    case CallRename(path, dest) => Rename(fs, path, dest).0
    case CallMkdir(path, mode) => Mkdir(fs, path, mode).0
    case CallRmdir(path) => Rmdir(fs, path).0
  }

  function Mounted(): Fs {
    Fs(map["/tmp" := Node(true, [], 0x1FF), "/dev/shm" := Node(true, [], 0x1FF)], 0, [], TMPFS_FD_BASE)
  }
}
