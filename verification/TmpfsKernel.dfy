/**
 Paths as tmpfs spells them, the renames that break its tree, and the mutating calls in place. The byte
 counter is unsigned here as in the source: every subtraction from it is shown to stay non-negative.
 */
module TmpfsKernel {
  import opened TmpfsModel
  import opened TmpfsTheorems

  // ---------- Paths ----------

  predicate Clean(p: Path) { "/" <= p && (|p| > 1 ==> p[|p| - 1] != '/') }

  lemma {:induction false} StripClean(v: Path)
    requires "/" <= v
    ensures Clean(StripSlashes(v))
  {
    if |v| > 1 && v[|v| - 1] == '/' {
      StripClean(v[..|v| - 1]);
    }
  }

  /** Norm gives a rooted path without trailing slash, and leaves such paths alone. */
  lemma NormClean(path: Path)
    ensures Clean(Norm(path)) && Norm(Norm(path)) == Norm(path)
  {
    StripClean(Rooted(path));
    var v := Norm(path);
    assert v[0] == '/' && "./"[0] != '/';
    assert Rooted(v) == v;
  }

  /** Trailing slashes, a leading `.` and a missing leading slash make no difference: a path has one normal form. */
  lemma {:induction false} NormSpellings(p: Path, k: nat)
    requires Clean(p)
    ensures Norm(p + Slashes(k)) == p
    ensures Norm("." + p + Slashes(k)) == p
    ensures |p| > 1 && p[1] != '/' && !("./" <= p[1..] + Slashes(k)) ==> Norm(p[1..] + Slashes(k)) == p
  {
    StripAll(p, k);
    var q := p + Slashes(k);
    assert q[0] == '/' && Rooted(q) == q;
    assert ("." + q)[1..] == q && "./" <= "." + q;
    assert "." + p + Slashes(k) == "." + q;
    if |p| > 1 && p[1] != '/' {
      assert "/" + (p[1..] + Slashes(k)) == q;
    }
  }

  function Slashes(k: nat): Path { seq(k, _ => '/') }

  lemma {:induction false} StripAll(p: Path, k: nat)
    requires Clean(p)
    ensures StripSlashes(p + Slashes(k)) == p
  {
    var q := p + Slashes(k);
    if k == 0 {
      assert q == p;
    } else {
      assert q[..|q| - 1] == p + Slashes(k - 1);
      StripAll(p, k - 1);
    }
  }

  lemma {:induction false} LastSlashOf(dir: Path, name: Path)
    requires '/' !in name
    ensures LastSlash(dir + "/" + name) == |dir|
  {
    var p := dir + "/" + name;
    if name != [] {
      var init := name[..|name| - 1];
      assert p[..|p| - 1] == dir + "/" + init;
      assert name[|name| - 1] in name;
      LastSlashOf(dir, init);
    }
  }

  /** The parent of a path is what stands before its last component. */
  lemma ParentOf(dir: Path, name: Path)
    requires '/' !in name && dir != []
    ensures Parent(dir + "/" + name) == dir
  {
    LastSlashOf(dir, name);
    assert (dir + "/" + name)[..|dir|] == dir;
  }

  predicate IsName(name: Path) { name != [] && '/' !in name }

  function Join(dir: Path, name: Path): Path { dir + "/" + name }

  lemma JoinNorm(dir: Path, name: Path)
    requires "/" <= dir && IsName(name)
    ensures "/" <= Join(dir, name) && Norm(Join(dir, name)) == Join(dir, name) && Parent(Join(dir, name)) == dir
    ensures Under(dir, Join(dir, name))
  {
    ParentOf(dir, name);
    assert Join(dir, name)[0] == '/' && "./"[0] != '/';
    assert name[|name| - 1] in name;
  }

  /** Nothing directly in `dir`, or in another directory there, is beneath `dir/d`. */
  lemma NotBeneath(dir: Path, d: Path, a: Path, f: Path)
    requires IsName(d) && IsName(a) && IsName(f) && a != d
    ensures !Under(Join(dir, d), Join(dir, a)) && !Under(Join(dir, d), Join(Join(dir, a), f))
  {
    var x, y := Join(dir, d), Join(Join(dir, a), f);
    if |d| < |a| {
      assert a[|d|] in a && y[|x|] == Join(dir, a)[|x|] == a[|d|] && (x + "/")[|x|] == '/';
    } else if |a| < |d| {
      assert d[|a|] in d && (x + "/")[|dir| + 1 + |a|] == d[|a|] && y[|dir| + 1 + |a|] == '/';
    } else {
      assert (x + "/")[|dir| + 1..|x|] == d && y[|dir| + 1..|x|] == a;
    }
  }

  /** A mount root is an empty directory of the freshly mounted filesystem. */
  lemma RootIsEmpty(root: Path)
    requires IsRoot(root)
    ensures "/" <= root && Norm(root) == root && root in Mounted().nodes && Mounted().nodes[root].isDir
    ensures !HasChildren(Mounted().nodes, root) && |Mounted().open| < MAX_OPEN
  {
    assert "/tmp/"[1] != "/dev/shm/"[1];
  }

  /** Two directories `p` and `x` of `dir`, and a file `q` of `p`. */
  predicate Layout(dir: Path, p: Path, q: Path, x: Path) {
    && Norm(p) == p && Norm(q) == q && Norm(x) == x && Parent(p) == dir && Parent(q) == p && Parent(x) == dir
    && Under(dir, p) && Under(dir, q) && Under(dir, x) && Under(p, q)
    && p != x && q != x && p != q && dir != p && !Under(x, p) && !Under(x, q) && !Under(x, x)
  }

  lemma JoinLayout(dir: Path, a: Path, f: Path, d: Path)
    requires "/" <= dir && IsName(a) && IsName(f) && IsName(d) && a != d
    ensures Layout(dir, Join(dir, a), Join(Join(dir, a), f), Join(dir, d))
  {
    var p := Join(dir, a);
    JoinNorm(dir, a);
    JoinNorm(p, f);
    JoinNorm(dir, d);
    NotBeneath(dir, d, a, f);
    assert Join(dir, d)[|dir| + 1..] == d && p[|dir| + 1..] == a;
    assert Join(p, f)[|dir| + 1 + |a|] == '/' && (|a| < |d| ==> d[|a|] in d);
  }

  // ---------- Renames that break the tree ----------

  /** An empty mount root can be moved away. */
  lemma MountRootMoves(root: Path, other: Path, name: Path)
    requires IsRoot(root) && IsRoot(other) && root != other && IsName(name)
    ensures var (fs, r) := Rename(Mounted(), root, Join(other, name));
            r == 0 && root !in fs.nodes
  {
    RootIsEmpty(root);
    RootIsEmpty(other);
    JoinNorm(other, name);
    RenameExact(Mounted(), root, Join(other, name), root);
  }

  lemma MkdirAdds(fs: Fs, p: Path)
    requires Norm(p) == p && p !in fs.nodes && Parent(p) in fs.nodes && fs.nodes[Parent(p)].isDir
    ensures Mkdir(fs, p, 0).0 == fs.(nodes := fs.nodes[p := Node(true, [], 0x1ED)])
  {
  }

  /** An empty directory can be moved beneath itself, which leaves it without a parent. */
  lemma DirectoryOrphansItself(fs: Fs, dir: Path, a: Path, b: Path)
    requires "/" <= dir && IsName(a) && IsName(b)
    requires dir in fs.nodes && fs.nodes[dir].isDir && !HasChildren(fs.nodes, dir)
    ensures var p, q := Join(dir, a), Join(Join(dir, a), b);
            var (fs', r) := Rename(Mkdir(fs, p, 0).0, p, q);
            r == 0 && q in fs'.nodes && p !in fs'.nodes && Parent(q) == p
  {
    JoinNorm(dir, a);
    JoinNorm(Join(dir, a), b);
    MkdirAdds(fs, Join(dir, a));
    forall k | k in fs.nodes
      ensures !Under(Join(dir, a), k)
    {
      UnderTrans(dir, Join(dir, a), k);
    }
    RenameExact(Mkdir(fs, Join(dir, a), 0).0, Join(dir, a), Join(Join(dir, a), b), dir);
  }

  lemma UnderTrans(x: Path, y: Path, z: Path)
    requires Under(x, y)
    ensures Under(y, z) ==> Under(x, z)
  {
  }

  const CREATE := Flags(true, true, false, false, false, false)

  lemma CreateAdds(fs: Fs, q: Path)
    requires Norm(q) == q && q !in fs.nodes && Parent(q) in fs.nodes && fs.nodes[Parent(q)].isDir
    requires |fs.open| < MAX_OPEN
    ensures Open(fs, q, CREATE, 0).0.nodes == fs.nodes[q := Node(false, [], 0x1A4)]
  {
  }

  /** A directory `p` with a file `q` in it and an empty directory `x`. */
  function FullAndEmpty(nodes: map<Path, Node>, p: Path, q: Path, x: Path): map<Path, Node> {
    nodes[p := Node(true, [], 0x1ED)][q := Node(false, [], 0x1A4)][x := Node(true, [], 0x1ED)]
  }

  lemma RenameClobbers(fs: Fs, nodes: map<Path, Node>, dir: Path, p: Path, q: Path, x: Path)
    requires Layout(dir, p, q, x) && fs.nodes == FullAndEmpty(nodes, p, q, x)
    requires dir in nodes && nodes[dir].isDir && !HasChildren(nodes, dir)
    ensures Rename(fs, p, x).1 == EINVAL && x !in Rename(fs, p, x).0.nodes
  {
    forall k | k in nodes
      ensures !Under(x, k)
    {
      UnderTrans(dir, x, k);
    }
    assert !HasChildren(fs.nodes, x);
    assert q in fs.nodes - {x};
  }

  /** In every empty directory: a rename that fails with EINVAL has already deleted its empty destination. */
  lemma FailedRenameDeletes(fs: Fs, dir: Path, a: Path, f: Path, d: Path)
    requires "/" <= dir && IsName(a) && IsName(f) && IsName(d) && a != d && |fs.open| < MAX_OPEN
    requires dir in fs.nodes && fs.nodes[dir].isDir && !HasChildren(fs.nodes, dir)
    ensures var p, q, x := Join(dir, a), Join(Join(dir, a), f), Join(dir, d);
            var fs1 := Mkdir(Open(Mkdir(fs, p, 0).0, q, CREATE, 0).0, x, 0).0;
            var (fs2, r) := Rename(fs1, p, x);
            x in fs1.nodes && r == EINVAL && x !in fs2.nodes
  {
    JoinLayout(dir, a, f, d);
    ClobberRun(fs, dir, Join(dir, a), Join(Join(dir, a), f), Join(dir, d));
  }

  lemma ClobberRun(fs: Fs, dir: Path, p: Path, q: Path, x: Path)
    requires Layout(dir, p, q, x) && |fs.open| < MAX_OPEN
    requires dir in fs.nodes && fs.nodes[dir].isDir && !HasChildren(fs.nodes, dir)
    ensures var fs1 := Mkdir(Open(Mkdir(fs, p, 0).0, q, CREATE, 0).0, x, 0).0;
            x in fs1.nodes && Rename(fs1, p, x).1 == EINVAL && x !in Rename(fs1, p, x).0.nodes
  {
    MkdirAdds(fs, p);
    var fs1 := Mkdir(fs, p, 0).0;
    CreateAdds(fs1, q);
    var fs2 := Open(fs1, q, CREATE, 0).0;
    MkdirAdds(fs2, x);
    RenameClobbers(Mkdir(fs2, x, 0).0, fs.nodes, dir, p, q, x);
  }

  // ---------- The calls in place ----------

  method NormLoop(path: Path) returns (v: Path)
    ensures v == Norm(path)
  {
    var p := path;
    if "./" <= p {
      p := p[1..];
    }
    v := if "/" <= p then p else "/" + p;
    while |v| > 1 && v[|v| - 1] == '/'
      invariant StripSlashes(v) == Norm(path)
      decreases |v|
    {
      v := v[..|v| - 1];
    }
  }

  class Tmpfs {
    var nodes: map<Path, Node>
    var total: nat
    var open: seq<OpenFd>
    var nextFd: int

    ghost function Abs(): Fs
      reads this
    {
      Fs(nodes, total, open, nextFd)
    }

    ghost predicate Valid()
      reads this
    {
      Accounted(Abs())
    }

    constructor ()
      ensures Valid() && Abs() == Mounted()
    {
      nodes := map["/tmp" := Node(true, [], 0x1FF), "/dev/shm" := Node(true, [], 0x1FF)];
      total, open, nextFd := 0, [], TMPFS_FD_BASE;
      new;
      MountedOk();
    }

    method WriteAt(path: Path, at: nat, buf: Bytes) returns (r: int)
      requires Valid()
      modifies this`nodes, this`total
      ensures Valid() && (Abs(), r) == TmpfsModel.WriteAt(old(Abs()), path, at, buf)
    {
      WriteAccounted(Abs(), path, at, buf);
      if path !in nodes {
        return ENOENT;
      }
      var node := nodes[path];
      if node.isDir {
        return EISDIR;
      }
      if buf == [] {
        return 0;
      }
      var len := |node.data|;
      var allowed := MinusSat(CAP, total);
      var maxN := if at >= len then MinusSat(allowed, at - len) else (len - at) + allowed;
      var n := if |buf| < maxN then |buf| else maxN;
      if n == 0 {
        return ENOSPC;
      }
      var end := at + n;
      var data := node.data;
      if end > |data| {
        var grow := end - |data|;
        data := Resize(data, end);
        total := total + grow;
      }
      data := data[..at] + buf[..n] + data[end..];
      nodes := nodes[path := node.(data := data)];
      return n;
    }

    method ResizePath(path: Path, len: nat) returns (r: int)
      requires Valid()
      modifies this`nodes, this`total
      ensures Valid() && (Abs(), r) == TmpfsModel.ResizePath(old(Abs()), path, len)
    {
      if path !in nodes {
        return ENOENT;
      }
      if nodes[path].isDir {
        return EISDIR;
      }
      var cur := |nodes[path].data|;
      var node := nodes[path].(data := Resize(nodes[path].data, len));
      SumRemove(nodes, path);
      SumUpdate(nodes, path, node);
      if len > cur {
        var grow := len - cur;
        if total + grow > CAP {
          return ENOSPC;
        }
        total := total + grow;
      } else {
        total := total - (cur - len);
      }
      nodes := nodes[path := node];
      return 0;
    }

    method Unlink(path: Path) returns (r: int)
      requires Valid()
      modifies this`nodes, this`total
      ensures Valid() && (Abs(), r) == TmpfsModel.Unlink(old(Abs()), path)
    {
      var n := NormLoop(path);
      if n !in nodes {
        return ENOENT;
      }
      if nodes[n].isDir {
        return EISDIR;
      }
      SumRemove(nodes, n);
      var freed := |nodes[n].data|;
      nodes := nodes - {n};
      total := total - freed;
      return 0;
    }

    method Rename(source: Path, dest: Path) returns (r: int)
      requires Valid()
      modifies this`nodes, this`total
      ensures Valid() && (Abs(), r) == TmpfsModel.Rename(old(Abs()), source, dest)
    {
      RenameAccounted(Abs(), source, dest);
      var o := NormLoop(source);
      var n := NormLoop(dest);
      if o == n {
        return 0;
      }
      if o !in nodes {
        return ENOENT;
      }
      var par := Parent(n);
      if par !in nodes {
        return ENOENT;
      }
      if !nodes[par].isDir {
        return ENOTDIR;
      }
      r := Move(o, n);
    }

    method Move(o: Path, n: Path) returns (r: int)
      requires Valid() && o in nodes && o != n
      modifies this`nodes, this`total
      ensures var (fs, e) := ClearDest(old(Abs()), o, n);
              (Abs(), r) == if e != 0 then (old(Abs()), e)
                            else if old(nodes)[o].isDir && HasChildren(fs.nodes, o) then (fs, EINVAL)
                            else (fs.(nodes := (fs.nodes - {o})[n := old(nodes)[o]]), 0)
    {
      var srcIsDir := nodes[o].isDir;
      if n in nodes {
        var dst := nodes[n];
        if dst.isDir != srcIsDir {
          return if dst.isDir then EISDIR else ENOTDIR;
        }
        if dst.isDir {
          if HasChildren(nodes, n) {
            return ENOTEMPTY;
          }
        } else {
          SumRemove(nodes, n);
          total := total - |dst.data|;
        }
        nodes := nodes - {n};
      }
      if srcIsDir && HasChildren(nodes, o) {
        return EINVAL;
      }
      var node := nodes[o];
      nodes := (nodes - {o})[n := node];
      return 0;
    }

    method Mkdir(path: Path, mode: nat) returns (r: int)
      requires Valid()
      modifies this`nodes
      ensures Valid() && (Abs(), r) == TmpfsModel.Mkdir(old(Abs()), path, mode)
    {
      MkdirKeeps(Abs(), path, mode);
      var n := NormLoop(path);
      if n in nodes {
        return EEXIST;
      }
      var par := Parent(n);
      if par !in nodes {
        return ENOENT;
      }
      if !nodes[par].isDir {
        return ENOTDIR;
      }
      nodes := nodes[n := Node(true, [], Perm(mode, 0x1ED))];
      return 0;
    }

    method Rmdir(path: Path) returns (r: int)
      requires Valid()
      modifies this`nodes
      ensures Valid() && (Abs(), r) == TmpfsModel.Rmdir(old(Abs()), path)
    {
      RemovalKeeps(Abs(), path);
      var n := NormLoop(path);
      if n == "/tmp" || n == "/dev/shm" {
        return EPERM;
      }
      if n !in nodes {
        return ENOENT;
      }
      if !nodes[n].isDir {
        return ENOTDIR;
      }
      if HasChildren(nodes, n) {
        return ENOTEMPTY;
      }
      nodes := nodes - {n};
      return 0;
    }

    method Open(path: Path, flags: Flags, mode: nat) returns (r: int)
      requires Valid()
      modifies this
      ensures Valid() && (Abs(), r) == TmpfsModel.Open(old(Abs()), path, flags, mode)
    {
      assert Accounted(TmpfsModel.Open(Abs(), path, flags, mode).0) by {
        OpenKeeps(Abs(), path, flags, mode);
      }
      var n := NormLoop(path);
      if |open| >= MAX_OPEN {
        return EMFILE;
      }
      if n in nodes {
        r := OpenOld(n, flags);
      } else {
        if !flags.creat || flags.directory {
          return ENOENT;
        }
        var par := Parent(n);
        if par !in nodes {
          return ENOENT;
        }
        if !nodes[par].isDir {
          return ENOTDIR;
        }
        nodes := nodes[n := Node(false, [], Perm(mode, 0x1A4))];
        r := Push(OpenFd(0, n, 0, false, true, false));
      }
    }

    method OpenOld(n: Path, flags: Flags) returns (r: int)
      requires Valid() && n in nodes
      modifies this
      ensures (Abs(), r) == OpenExisting(old(Abs()), n, flags)
    {
      if flags.creat && flags.excl {
        return EEXIST;
      }
      if nodes[n].isDir {
        if flags.write {
          return EISDIR;
        }
        r := Push(OpenFd(0, n, 0, false, false, true));
        return;
      }
      if flags.directory {
        return ENOTDIR;
      }
      if flags.trunc && flags.write {
        SumRemove(nodes, n);
        total := total - |nodes[n].data|;
        nodes := nodes[n := nodes[n].(data := [])];
      }
      var pos := if flags.append then |nodes[n].data| else 0;
      r := Push(OpenFd(0, n, pos, flags.append, flags.write, false));
    }

    method Push(o: OpenFd) returns (fd: int)
      modifies this`open, this`nextFd
      ensures (Abs(), fd) == AddFd(old(Abs()), o)
    {
      fd := nextFd;
      nextFd := nextFd + 1;
      open := open + [o.(fd := fd)];
    }
  }
}
