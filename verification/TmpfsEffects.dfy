/**
 What each call of tmpfs does to names, contents and offsets, and what it leaves alone. The statements speak of
 bytes, names and open descriptors before and after the call.
 */
module TmpfsEffects {
  import opened Wrappers
  import opened TmpfsModel
  import opened TmpfsTheorems

  /** No name but `n` changed. */
  ghost predicate OnlyName(fs: Fs, fs': Fs, n: Path) {
    forall k :: k != n ==> (k in fs'.nodes <==> k in fs.nodes) && (k in fs.nodes ==> fs'.nodes[k] == fs.nodes[k])
  }

  // ---------- Contents ----------

  ghost predicate Cut(was: Bytes, now: Bytes, len: nat) {
    |now| == len && forall i :: 0 <= i < len ==> now[i] == if i < |was| then was[i] else 0
  }

  /** Changing a length: refused exactly when the growth exceeds the cap, and then without effect; otherwise the
      first bytes stay, zeroes follow, and no other name changes. */
  ghost predicate Resized(fs: Fs, fs': Fs, path: Path, len: nat, r: int) {
    if path !in fs.nodes then r == ENOENT && fs' == fs
    else if fs.nodes[path].isDir then r == EISDIR && fs' == fs
    else
      var was := fs.nodes[path].data;
      if len > |was| && Sum(fs.nodes) + len - |was| > CAP then r == ENOSPC && fs' == fs
      else
        && r == 0 && path in fs'.nodes && OnlyName(fs, fs', path) && fs'.open == fs.open
        && !fs'.nodes[path].isDir && fs'.nodes[path].mode == fs.nodes[path].mode && Cut(was, fs'.nodes[path].data, len)
  }

  lemma ResizeExact(fs: Fs, path: Path, len: nat)
    requires Accounted(fs)
    ensures Resized(fs, ResizePath(fs, path, len).0, path, len, ResizePath(fs, path, len).1)
  {
  }

  lemma TruncateExact(fs: Fs, path: Path, len: nat)
    requires Accounted(fs)
    ensures Resized(fs, Truncate(fs, path, len).0, Norm(path), len, Truncate(fs, path, len).1)
  {
    ResizeExact(fs, Norm(path), len);
  }

  // ---------- Names ----------

  /** open: when it succeeds, and that it then adds one descriptor, empties the file only if asked, creates it only
      if it was missing, and changes no other name. A failed one changes nothing. */
  lemma OpenExact(fs: Fs, path: Path, flags: Flags, mode: nat)
    requires fs.nextFd >= 0
    ensures var (fs', r) := Open(fs, path, flags, mode);
            var n := Norm(path);
            && (r >= 0 <==> |fs.open| < MAX_OPEN
                            && if n !in fs.nodes then flags.creat && !flags.directory && ParentIsDir(fs.nodes, n)
                               else !(flags.creat && flags.excl)
                                    && if fs.nodes[n].isDir then !flags.write else !flags.directory)
            && (r < 0 ==> fs' == fs)
            && (r >= 0 ==> Opened(fs, fs', r, n, flags))
            && (r >= 0 ==> fs'.nodes[n].mode == if n in fs.nodes then fs.nodes[n].mode
                                                else if mode % 0x1000 == 0 then 0x1A4 else mode % 0x1000)
            && (r < 0 ==> r == if |fs.open| >= MAX_OPEN then EMFILE
                               else if n in fs.nodes && flags.creat && flags.excl then EEXIST
                               else if n in fs.nodes then (if fs.nodes[n].isDir then EISDIR else ENOTDIR)
                               else if flags.creat && !flags.directory && Parent(n) in fs.nodes then ENOTDIR
                               else ENOENT)
  {
  }

  ghost predicate Opened(fs: Fs, fs': Fs, fd: int, n: Path, flags: Flags) {
    && fd == fs.nextFd && n in fs'.nodes && OnlyName(fs, fs', n)
    && |fs'.open| == |fs.open| + 1 && fs'.open[..|fs.open|] == fs.open
    && var o := fs'.open[|fs.open|];
       && o.fd == fd && o.path == n && o.isDir == fs'.nodes[n].isDir
       && if n !in fs.nodes then
            fs'.nodes[n].data == [] && !fs'.nodes[n].isDir && o.pos == 0 && o.writable && !o.append
          else
            && fs'.nodes[n].isDir == fs.nodes[n].isDir && o.writable == flags.write
            && fs'.nodes[n].data == (if flags.trunc && flags.write then [] else fs.nodes[n].data)
            && (!o.isDir ==> o.append == flags.append)
            && o.pos == if o.append then |fs'.nodes[n].data| else 0
  }

  /** unlink removes exactly the named file; everything else refuses and changes nothing. */
  lemma UnlinkExact(fs: Fs, path: Path)
    ensures var (fs', r) := Unlink(fs, path);
            var n := Norm(path);
            && r == (if n !in fs.nodes then ENOENT else if fs.nodes[n].isDir then EISDIR else 0)
            && (r != 0 ==> fs' == fs)
            && (r == 0 ==> n !in fs'.nodes && OnlyName(fs, fs', n) && fs'.open == fs.open)
  {
  }

  /** rmdir removes exactly the named empty directory, never a mount root. */
  lemma RmdirExact(fs: Fs, path: Path)
    ensures var (fs', r) := Rmdir(fs, path);
            var n := Norm(path);
            && (r == 0 <==> n != "/tmp" && n != "/dev/shm" && n in fs.nodes && fs.nodes[n].isDir
                            && forall k :: k in fs.nodes ==> !Under(n, k))
            && (r != 0 ==> fs' == fs)
            && (r != 0 ==> r == if n == "/tmp" || n == "/dev/shm" then EPERM else if n !in fs.nodes then ENOENT
                                else if !fs.nodes[n].isDir then ENOTDIR else ENOTEMPTY)
            && (r == 0 ==> n !in fs'.nodes && OnlyName(fs, fs', n) && fs'.open == fs.open)
  {
    var n := Norm(path);
    if n in fs.nodes && !HasChildren(fs.nodes, n) {
      assert forall k :: k in fs.nodes ==> !Under(n, k);
    }
  }

  /** mkdir adds exactly one empty directory under a present one. */
  lemma MkdirExact(fs: Fs, path: Path, mode: nat)
    ensures var (fs', r) := Mkdir(fs, path, mode);
            var n := Norm(path);
            && (r == 0 <==> n !in fs.nodes && ParentIsDir(fs.nodes, n))
            && (r != 0 ==> fs' == fs)
            && (r != 0 ==> r == if n in fs.nodes then EEXIST else if Parent(n) in fs.nodes then ENOTDIR else ENOENT)
            && (r == 0 ==> n in fs'.nodes && OnlyName(fs, fs', n)
                           && fs'.nodes[n] == Node(true, [], if mode % 0x1000 == 0 then 0x1ED else mode % 0x1000))
  {
  }

  /** Why a rename fails. */
  lemma RenameFails(fs: Fs, source: Path, dest: Path)
    ensures var o, n, r := Norm(source), Norm(dest), Rename(fs, source, dest).1;
            r != 0 ==>
              r == if o !in fs.nodes || Parent(n) !in fs.nodes then ENOENT
                   else if !fs.nodes[Parent(n)].isDir then ENOTDIR
                   else if n in fs.nodes && fs.nodes[n].isDir && !fs.nodes[o].isDir then EISDIR
                   else if n in fs.nodes && !fs.nodes[n].isDir && fs.nodes[o].isDir then ENOTDIR
                   else if n in fs.nodes && fs.nodes[n].isDir && HasChildren(fs.nodes, n) then ENOTEMPTY
                   else EINVAL
  {
  }

  // ---------- Descriptors ----------

  /** Descriptor numbers are handed out once and never shared. */
  ghost predicate FdsOk(fs: Fs) {
    && TMPFS_FD_BASE <= fs.nextFd
    && (forall i :: 0 <= i < |fs.open| ==> TMPFS_FD_BASE <= fs.open[i].fd < fs.nextFd)
    && (forall i, j :: 0 <= i < j < |fs.open| ==> fs.open[i].fd != fs.open[j].fd)
  }

  lemma {:induction false} FindIs(open: seq<OpenFd>, fd: int, k: nat, i: nat)
    requires k <= i < |open| && open[i].fd == fd && forall j :: k <= j < i ==> open[j].fd != fd
    ensures FindFd(open, fd, k) == i
    decreases |open| - k
  {
    if k < i {
      FindIs(open, fd, k + 1, i);
    }
  }

  lemma SameFds(fs: Fs, fs': Fs)
    requires FdsOk(fs) && fs'.nextFd == fs.nextFd && |fs'.open| == |fs.open|
    requires forall i :: 0 <= i < |fs.open| ==> fs'.open[i].fd == fs.open[i].fd
    ensures FdsOk(fs')
  {
  }

  lemma CallFds(fs: Fs, call: Call)
    requires FdsOk(fs)
    ensures FdsOk(Apply(fs, call))
  {
    if call.CallOpen? {
      OpenExact(fs, call.path, call.flags, call.mode);
      if Open(fs, call.path, call.flags, call.mode).1 >= 0 {
        OpenedFds(fs, Apply(fs, call), Norm(call.path), call.flags);
      }
    } else if !call.CallClose? {
      OtherFds(fs, call);
      SameFds(fs, Apply(fs, call));
    }
  }

  lemma OtherFds(fs: Fs, call: Call)
    requires !call.CallOpen? && !call.CallClose?
    ensures var fs' := Apply(fs, call);
            && fs'.nextFd == fs.nextFd && |fs'.open| == |fs.open|
            && forall i :: 0 <= i < |fs.open| ==> fs'.open[i].fd == fs.open[i].fd
  {
  }

  lemma OpenedFds(fs: Fs, fs': Fs, n: Path, flags: Flags)
    requires FdsOk(fs) && Opened(fs, fs', fs.nextFd, n, flags) && fs'.nextFd == fs.nextFd + 1
    ensures FdsOk(fs')
  {
    forall i | 0 <= i < |fs.open| ensures fs'.open[i] == fs.open[i] {
      assert fs'.open[..|fs.open|][i] == fs.open[i];
    }
  }

  /** In every run open descriptors have different numbers, all handed out by open. */
  lemma {:induction false} FdsAlways(run: seq<Fs>, calls: seq<Call>, i: nat)
    requires IsRun(run, calls) && i < |run|
    ensures FdsOk(run[i])
  {
    if i > 0 {
      FdsAlways(run, calls, i - 1);
      assert run[i - 1 + 1] == Apply(run[i - 1], calls[i - 1]);
      CallFds(run[i - 1], calls[i - 1]);
    }
  }

  /** Only descriptor `i` changed, and only its offset. */
  ghost predicate OnlyOffset(fs: Fs, fs': Fs, i: nat, pos: nat)
    requires i < |fs.open|
  {
    fs'.open == fs.open[i := fs.open[i].(pos := pos)] && fs'.nextFd == fs.nextFd
  }

  /** read returns the bytes at the offset, as many as there are up to `count`, and moves the offset past them. */
  lemma ReadExact(fs: Fs, fd: int, count: nat, i: nat)
    requires FdsOk(fs) && i < |fs.open| && fs.open[i].fd == fd
    ensures var (fs', r) := Read(fs, fd, count);
            var o := fs.open[i];
            if o.isDir then fs' == fs && r == Err(EISDIR)
            else if o.path !in fs.nodes then fs' == fs && r == Err(EBADF)
            else
              var data := fs.nodes[o.path].data;
              && r.Ok? && fs'.nodes == fs.nodes && fs'.total == fs.total && OnlyOffset(fs, fs', i, o.pos + |r.value|)
              && |r.value| <= count && (|r.value| < count ==> o.pos + |r.value| >= |data|)
              && (r.value != [] ==> o.pos + |r.value| <= |data|)
              && forall k :: 0 <= k < |r.value| ==> r.value[k] == data[o.pos + k]
  {
    FindIs(fs.open, fd, 0, i);
  }

  /** ftruncate does so to the file of the descriptor. */
  lemma FtruncateExact(fs: Fs, fd: int, len: nat, i: nat)
    requires Accounted(fs) && FdsOk(fs) && i < |fs.open| && fs.open[i].fd == fd
    ensures var (fs', r) := Ftruncate(fs, fd, len);
            if fs.open[i].isDir then fs' == fs && r == EISDIR else Resized(fs, fs', fs.open[i].path, len, r)
  {
    FindIs(fs.open, fd, 0, i);
    ResizeExact(fs, fs.open[i].path, len);
  }

  /** The bytes went to `at`, as many as fit: ENOSPC exactly if not one does, and then nothing changed. */
  ghost predicate Stored(fs: Fs, fs': Fs, path: Path, at: nat, buf: Bytes, r: int) {
    if path !in fs.nodes then r == ENOENT && fs' == fs
    else if fs.nodes[path].isDir then r == EISDIR && fs' == fs
    else if buf == [] then r == 0 && fs' == fs
    else if Sum(fs.nodes) + Grow(|fs.nodes[path].data|, at, 1) > CAP then r == ENOSPC && fs' == fs
    else
      && 0 < r <= |buf| && OnlyName(fs, fs', path) && path in fs'.nodes && !fs'.nodes[path].isDir
      && fs'.nodes[path].mode == fs.nodes[path].mode
      && (r < |buf| ==> Sum(fs.nodes) + Grow(|fs.nodes[path].data|, at, r + 1) > CAP)
      && Written(fs.nodes[path].data, fs'.nodes[path].data, at, buf[..r])
  }

  lemma WriteAtStores(fs: Fs, path: Path, at: nat, buf: Bytes)
    requires Accounted(fs)
    ensures var (fs', r) := WriteAt(fs, path, at, buf); Stored(fs, fs', path, at, buf, r) && fs'.open == fs.open
  {
    if path in fs.nodes && !fs.nodes[path].isDir && buf != [] {
      WriteExact(fs, path, at, buf);
      FitsLargest(|fs.nodes[path].data|, fs.total, at, |buf|);
    }
  }

  /** Where a write goes: to the end of the file if opened for appending, else to the offset. */
  function WriteOffset(fs: Fs, o: OpenFd): nat {
    if !o.append then o.pos else if o.path in fs.nodes then |fs.nodes[o.path].data| else 0
  }

  lemma WriteMoves(fs: Fs, fd: int, buf: Bytes, i: nat)
    requires FdsOk(fs) && i < |fs.open| && fs.open[i].fd == fd
    ensures var o := fs.open[i];
            var (fs', r) := WriteAt(fs, o.path, WriteOffset(fs, o), buf);
            Write(fs, fd, buf) ==
            if !o.writable || o.isDir then (fs, EBADF)
            else (if r > 0 then fs'.(open := fs'.open[i := o.(pos := WriteOffset(fs, o) + r)]) else fs', r)
  {
    FindIs(fs.open, fd, 0, i);
  }

  lemma StoredOpen(fs: Fs, fs': Fs, open: seq<OpenFd>, path: Path, at: nat, buf: Bytes, r: int)
    requires Stored(fs, fs', path, at, buf, r) && r > 0
    ensures Stored(fs, fs'.(open := open), path, at, buf, r)
  {
  }

  /** write stores the bytes there and moves the offset behind them; other descriptors stay. */
  lemma WriteFdExact(fs: Fs, fd: int, buf: Bytes, i: nat)
    requires Accounted(fs) && FdsOk(fs) && i < |fs.open| && fs.open[i].fd == fd
    ensures var (fs', r) := Write(fs, fd, buf);
            var o := fs.open[i];
            if !o.writable || o.isDir then fs' == fs && r == EBADF
            else
              && Stored(fs, fs', o.path, WriteOffset(fs, o), buf, r)
              && if r > 0 then OnlyOffset(fs, fs', i, WriteOffset(fs, o) + r) else fs'.open == fs.open
  {
    var o, at := fs.open[i], WriteOffset(fs, fs.open[i]);
    var (fs', r) := WriteAt(fs, o.path, at, buf);
    WriteMoves(fs, fd, buf, i);
    WriteAtStores(fs, o.path, at, buf);
    if r > 0 {
      StoredOpen(fs, fs', fs'.open[i := o.(pos := at + r)], o.path, at, buf, r);
    }
  }

  /** pwrite stores them at the given offset and moves no descriptor. */
  lemma PwriteExact(fs: Fs, fd: int, buf: Bytes, at: nat, i: nat)
    requires Accounted(fs) && FdsOk(fs) && i < |fs.open| && fs.open[i].fd == fd
    ensures var (fs', r) := Pwrite(fs, fd, buf, at);
            if !fs.open[i].writable || fs.open[i].isDir then fs' == fs && r == EBADF
            else Stored(fs, fs', fs.open[i].path, at, buf, r) && fs'.open == fs.open
  {
    FindIs(fs.open, fd, 0, i);
    WriteAtStores(fs, fs.open[i].path, at, buf);
  }

  /** lseek sets the offset of its descriptor and nothing else. */
  lemma SeekExact(fs: Fs, fd: int, pos: nat, i: nat)
    requires FdsOk(fs) && i < |fs.open| && fs.open[i].fd == fd
    ensures var (fs', r) := Seek(fs, fd, pos);
            r == pos && fs'.nodes == fs.nodes && fs'.total == fs.total && OnlyOffset(fs, fs', i, pos) && FdsOk(fs')
  {
    FindIs(fs.open, fd, 0, i);
    SameFds(fs, Seek(fs, fd, pos).0);
  }

  /** Reading where the file has enough bytes returns exactly those. */
  lemma SeekRead(fs: Fs, fd: int, at: nat, n: nat, i: nat)
    requires FdsOk(fs) && i < |fs.open| && fs.open[i].fd == fd && !fs.open[i].isDir && fs.open[i].path in fs.nodes
    requires at + n <= |fs.nodes[fs.open[i].path].data|
    ensures Read(Seek(fs, fd, at).0, fd, n).1 == Ok(fs.nodes[fs.open[i].path].data[at..at + n])
  {
    SeekExact(fs, fd, at, i);
    ReadExact(Seek(fs, fd, at).0, fd, n, i);
    var r := Read(Seek(fs, fd, at).0, fd, n).1.value;
    assert r == fs.nodes[fs.open[i].path].data[at..at + n];
  }

  /** What one descriptor writes is what it reads back after seeking to where the write began. */
  lemma WriteSeekRead(fs: Fs, fd: int, buf: Bytes, i: nat)
    requires Accounted(fs) && FdsOk(fs) && i < |fs.open| && fs.open[i].fd == fd
    ensures var (fs1, n) := Write(fs, fd, buf);
            n > 0 ==> n <= |buf| && Read(Seek(fs1, fd, WriteOffset(fs, fs.open[i])).0, fd, n).1 == Ok(buf[..n])
  {
    var (fs1, n) := Write(fs, fd, buf);
    WriteFdExact(fs, fd, buf, i);
    if n > 0 {
      var o, at := fs.open[i], WriteOffset(fs, fs.open[i]);
      var data := fs1.nodes[o.path].data;
      SameFds(fs, fs1);
      SeekRead(fs1, fd, at, n, i);
      assert data[at..at + n] == buf[..n];
    }
  }

  /** close frees the one descriptor and touches no name. */
  lemma CloseExact(fs: Fs, fd: int, k: nat)
    requires FdsOk(fs)
    ensures var (fs', r) := Close(fs, fd);
            && fs'.nodes == fs.nodes
            && (r == 0 <==> exists i :: 0 <= i < |fs.open| && fs.open[i].fd == fd) && (r != 0 ==> r == EBADF && fs' == fs)
            && (r == 0 ==> forall j :: 0 <= j < |fs'.open| ==> fs'.open[j].fd != fd)
            && (k < |fs.open| && fs.open[k].fd != fd ==> fs.open[k] in fs'.open)
  {
    var i := FindFd(fs.open, fd, 0);
    if exists j :: 0 <= j < |fs.open| && fs.open[j].fd == fd {
      var j :| 0 <= j < |fs.open| && fs.open[j].fd == fd;
      FindIs(fs.open, fd, 0, j);
      var fs' := Close(fs, fd).0;
      if k < |fs.open| && fs.open[k].fd != fd {
        assert fs'.open[if k < j then k else k - 1] == fs.open[k];
      }
    }
  }

  /** A number that is not open is refused by every call. */
  lemma NotOpen(fs: Fs, fd: int, buf: Bytes, n: nat)
    requires forall i :: 0 <= i < |fs.open| ==> fs.open[i].fd != fd
    ensures Write(fs, fd, buf) == (fs, EBADF) && Pwrite(fs, fd, buf, n) == (fs, EBADF) && Read(fs, fd, n) == (fs, Err(EBADF))
    ensures Seek(fs, fd, n) == (fs, EBADF) && Ftruncate(fs, fd, n) == (fs, EBADF) && Close(fs, fd) == (fs, EBADF)
  {
  }
}
