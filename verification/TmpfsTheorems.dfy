/** What every call of tmpfs keeps: exact byte accounting under the cap, and a well-formed tree. */
module TmpfsTheorems {
  import opened TmpfsModel

  // ---------- Accounting ----------

  /** The sum of all lengths. */
  ghost function Sum(nodes: map<Path, Node>): nat
    decreases |nodes|
  {
    if nodes == map[] then 0
    else
      var k: Path :| k in nodes;
      assert |nodes - {k}| < |nodes|;
      |nodes[k].data| + Sum(nodes - {k})
  }

  /** Taking any one node out takes its length out of the sum. */
  lemma {:induction false} SumRemove(nodes: map<Path, Node>, k: Path)
    requires k in nodes
    ensures Sum(nodes) == |nodes[k].data| + Sum(nodes - {k})
    decreases |nodes|
  {
    var j: Path :| j in nodes && Sum(nodes) == |nodes[j].data| + Sum(nodes - {j});
    if j != k {
      var a, b := nodes - {j}, nodes - {k};
      assert |a| < |nodes| && |b| < |nodes|;
      SumRemove(a, k);
      SumRemove(b, j);
      assert a - {k} == b - {j};
    }
  }

  lemma SumUpdate(nodes: map<Path, Node>, k: Path, node: Node)
    ensures Sum(nodes[k := node]) == Sum(nodes - {k}) + |node.data|
    ensures k in nodes ==> Sum(nodes[k := node]) == Sum(nodes) - |nodes[k].data| + |node.data|
    ensures k !in nodes ==> Sum(nodes[k := node]) == Sum(nodes) + |node.data|
  {
    var m := nodes[k := node];
    SumRemove(m, k);
    assert m - {k} == nodes - {k};
    if k in nodes {
      SumRemove(nodes, k);
    } else {
      assert nodes - {k} == nodes;
    }
  }

  /** `total` is the sum of the file lengths and within the cap; directories hold no bytes. */
  ghost predicate Accounted(fs: Fs) {
    && fs.total == Sum(fs.nodes) <= CAP
    && (forall k :: k in fs.nodes && fs.nodes[k].isDir ==> fs.nodes[k].data == [])
  }

  // ---------- Writing ----------

  function Grow(len: nat, at: nat, n: nat): nat { if at + n > len then at + n - len else 0 }

  /** The write takes the largest prefix whose growth, gap included, the cap allows. */
  lemma FitsLargest(len: nat, total: int, at: nat, count: nat)
    requires 0 <= total <= CAP
    ensures var n := Fits(len, total, at, count);
            && n <= count && (n > 0 ==> total + Grow(len, at, n) <= CAP)
            && (forall m: nat :: n < m <= count ==> total + Grow(len, at, m) > CAP)
  {}

  lemma WriteAccounted(fs: Fs, path: Path, at: nat, buf: Bytes)
    requires Accounted(fs)
    ensures Accounted(WriteAt(fs, path, at, buf).0)
  {
    if path in fs.nodes && !fs.nodes[path].isDir && buf != [] {
      var data := fs.nodes[path].data;
      var n := Fits(|data|, fs.total, at, |buf|);
      FitsLargest(|data|, fs.total, at, |buf|);
      SumUpdate(fs.nodes, path, fs.nodes[path].(data := Patch(data, at, buf[..n])));
    }
  }

  /** The bytes after a write: the old ones before and after it, zeroes in a gap, the new ones in place. */
  lemma PatchBytes(data: Bytes, at: nat, buf: Bytes, i: nat)
    requires buf != [] && i < |Patch(data, at, buf)|
    ensures Patch(data, at, buf)[i] ==
            if at <= i < at + |buf| then buf[i - at] else if i < |data| then data[i] else 0
  {}

  /** What a write promises: how much, which bytes, nothing else, and an error only if nothing fits. */
  lemma WriteExact(fs: Fs, path: Path, at: nat, buf: Bytes)
    requires Accounted(fs) && path in fs.nodes && !fs.nodes[path].isDir && buf != []
    ensures var (fs', r) := WriteAt(fs, path, at, buf);
            var n := Fits(|fs.nodes[path].data|, fs.total, at, |buf|);
            && Accounted(fs') && (r == ENOSPC <==> n == 0) && (r == ENOSPC ==> fs' == fs)
            && (n > 0 ==> r == n && path in fs'.nodes && fs'.nodes - {path} == fs.nodes - {path}
                          && Written(fs.nodes[path].data, fs'.nodes[path].data, at, buf[..n])
                          && ReadAt(fs'.nodes[path].data, at, n) == buf[..n])
  {
    WriteAccounted(fs, path, at, buf);
    var data := fs.nodes[path].data;
    var n := Fits(|data|, fs.total, at, |buf|);
    if n > 0 {
      var d := Patch(data, at, buf[..n]);
      forall i | 0 <= i < |d| ensures d[i] == if at <= i < at + n then buf[i - at] else if i < |data| then data[i] else 0 {
        PatchBytes(data, at, buf[..n], i);
      }
      assert ReadAt(d, at, n) == buf[..n];
    }
  }

  /** Only the written range changes; a file that grows has zeroes where nothing was written. */
  ghost predicate Written(was: Bytes, now: Bytes, at: nat, buf: Bytes) {
    && |now| == |was| + Grow(|was|, at, |buf|)
    && forall i :: 0 <= i < |now| ==>
         now[i] == if at <= i < at + |buf| then buf[i - at] else if i < |was| then was[i] else 0
  }

  // ---------- The tree ----------

  ghost predicate TreeOk(nodes: map<Path, Node>) {
    && "/" !in nodes
    && "/tmp" in nodes && nodes["/tmp"].isDir && "/dev/shm" in nodes && nodes["/dev/shm"].isDir
    && (forall k :: k in nodes && !IsRoot(k) ==> ParentIsDir(nodes, k))
  }

  predicate ParentIsDir(nodes: map<Path, Node>, k: Path) { Parent(k) in nodes && nodes[Parent(k)].isDir }

  lemma {:induction false} LastSlashAt(p: Path, i: nat)
    requires i < |p| && p[i] == '/'
    ensures i <= LastSlash(p)
  {
    if p[|p| - 1] != '/' {
      LastSlashAt(p[..|p| - 1], i);
    }
  }

  lemma TopLevel()
    ensures Parent("/dev") == "/" && Parent("/tmp") == "/" && Parent("") == "/" && Parent("/dev/shm") == "/dev"
  {
    var d, t, s := "/dev", "/tmp", "/dev/shm";
    assert d[..3] == "/de" && d[..3][..2] == "/d" && d[..3][..2][..1] == "/";
    assert t[..3] == "/tm" && t[..3][..2] == "/t" && t[..3][..2][..1] == "/";
    assert s[..7] == "/dev/sh" && s[..7][..6] == "/dev/s" && s[..7][..6][..5] == "/dev/";
    assert LastSlash("/dev/") == 4 && LastSlash("/dev/s") == 4 && LastSlash("/dev/sh") == 4;
    assert LastSlash("/") == 0 && LastSlash("/d") == 0 && LastSlash("/de") == 0;
    assert LastSlash("/t") == 0 && LastSlash("/tm") == 0;
    assert s[..4] == d;
  }

  /** Nothing outside the mounts exists. */
  lemma NoTopNodes(nodes: map<Path, Node>)
    requires TreeOk(nodes)
    ensures "" !in nodes && "/dev" !in nodes
  {
    TopLevel();
    assert "" in nodes ==> ParentIsDir(nodes, "");
    assert "/dev" in nodes ==> ParentIsDir(nodes, "/dev");
  }

  /** Whatever has descendants is a directory: no file has any. */
  lemma {:induction false} AncestorIsDir(nodes: map<Path, Node>, d: Path, k: Path)
    requires TreeOk(nodes) && d in nodes && k in nodes && Under(d, k)
    ensures nodes[d].isDir
    decreases |k|
  {
    NoTopNodes(nodes);
    assert k[|d|] == '/';
    LastSlashAt(k, |d|);
    var i := LastSlash(k);
    RootsHaveNoNodeAbove(nodes, d, k);
    assert ParentIsDir(nodes, k) && Parent(k) == k[..i];
    if i > |d| {
      assert Under(d, k[..i]);
      AncestorIsDir(nodes, d, k[..i]);
    } else {
      assert k[..i] == d;
    }
  }

  lemma UnderRoot(d: Path, k: Path)
    requires IsRoot(k) && Under(d, k)
    ensures d == "" || d == "/dev"
  {
    var e := d + "/";
    assert e[|d|] == '/' && e[..|d|] == d && k[|d|] == '/';
    assert d == k[..|d|];
    if |d| == 4 {
      assert "/dev/shm"[..4] == "/dev";
    }
  }

  lemma RootsHaveNoNodeAbove(nodes: map<Path, Node>, d: Path, k: Path)
    requires TreeOk(nodes) && d in nodes && Under(d, k)
    ensures !IsRoot(k)
  {
    NoTopNodes(nodes);
    if IsRoot(k) {
      UnderRoot(d, k);
    }
  }

  /** A child of a directory starts with its path. */
  lemma ChildIsUnder(k: Path)
    requires Parent(k) != "/"
    ensures Under(Parent(k), k)
  {
    var i := LastSlash(k);
    assert k[..i] + "/" == k[..i + 1];
  }

  lemma InsertTree(nodes: map<Path, Node>, n: Path, node: Node)
    requires TreeOk(nodes) && ParentIsDir(nodes, n) && (n in nodes ==> nodes[n].isDir == node.isDir)
    ensures TreeOk(nodes[n := node])
  {
    TopLevel();
    var m := nodes[n := node];
    assert n != "/" by {
      assert Parent("/") == "/";
    }
    forall k | k in m && !IsRoot(k) ensures ParentIsDir(m, k) {
      assert k != n ==> ParentIsDir(nodes, k);
    }
  }

  lemma RemoveTree(nodes: map<Path, Node>, n: Path)
    requires TreeOk(nodes) && n in nodes && !IsRoot(n)
    requires !nodes[n].isDir || !HasChildren(nodes, n)
    ensures TreeOk(nodes - {n})
  {
    var m := nodes - {n};
    forall k | k in m && !IsRoot(k) ensures ParentIsDir(m, k) {
      assert ParentIsDir(nodes, k);
      if Parent(k) == n {
        ChildIsUnder(k);
      }
    }
  }

  lemma DataTree(nodes: map<Path, Node>, n: Path, node: Node)
    requires TreeOk(nodes) && n in nodes && nodes[n].isDir == node.isDir
    ensures TreeOk(nodes[n := node])
  {
    var m := nodes[n := node];
    forall k | k in m && !IsRoot(k) ensures ParentIsDir(m, k) {
      assert ParentIsDir(nodes, k);
    }
  }

  // ---------- Rename ----------

  lemma ClearAccounted(fs: Fs, o: Path, n: Path)
    requires Accounted(fs) && o in fs.nodes && o != n
    ensures Accounted(ClearDest(fs, o, n).0)
    ensures var (fs', e) := ClearDest(fs, o, n);
            e == 0 ==> n !in fs'.nodes && o in fs'.nodes && fs'.nodes[o] == fs.nodes[o]
  {
    if n in fs.nodes {
      SumRemove(fs.nodes, n);
    }
  }

  lemma ClearTree(fs: Fs, o: Path, n: Path)
    requires TreeOk(fs.nodes) && o in fs.nodes && ParentIsDir(fs.nodes, n)
    ensures var (fs', e) := ClearDest(fs, o, n);
            TreeOk(fs'.nodes) && (e == 0 ==> ParentIsDir(fs'.nodes, n))
  {
    NotARoot(fs.nodes, n);
    ParentShorter(n);
    if n in fs.nodes && ClearDest(fs, o, n).1 == 0 {
      RemoveTree(fs.nodes, n);
    }
  }

  lemma ParentShorter(n: Path)
    ensures n != "/" ==> Parent(n) != n
  {}

  lemma NotARoot(nodes: map<Path, Node>, n: Path)
    requires TreeOk(nodes) && ParentIsDir(nodes, n)
    ensures !IsRoot(n) && n != "/"
  {
    TopLevel();
    NoTopNodes(nodes);
    assert Parent("/") == "/";
  }

  /** The destination may be replaced: absent, or of the same kind and, if a directory, empty. */
  predicate Replaceable(nodes: map<Path, Node>, o: Path, n: Path)
    requires o in nodes
  {
    n !in nodes || (nodes[n].isDir == nodes[o].isDir && (nodes[n].isDir ==> !HasChildren(nodes, n)))
  }

  /** What a rename of `o` to another name `n` needs in order to succeed. */
  predicate Renamable(nodes: map<Path, Node>, o: Path, n: Path) {
    && o in nodes && ParentIsDir(nodes, n) && Replaceable(nodes, o, n)
    && (nodes[o].isDir ==> !HasChildren(nodes - {n}, o))
  }

  /** A rename that would move a mount root, or move a directory to directly beneath itself. */
  predicate Uproots(nodes: map<Path, Node>, o: Path, n: Path) {
    o != n && Renamable(nodes, o, n) && (IsRoot(o) || Parent(n) == o)
  }

  /** A rename of a directory with children over an empty directory. */
  predicate Clobbers(nodes: map<Path, Node>, o: Path, n: Path) {
    && o != n && o in nodes && n in nodes && ParentIsDir(nodes, n) && nodes[o].isDir && nodes[n].isDir
    && !HasChildren(nodes, n) && HasChildren(nodes - {n}, o)
  }

  lemma RenameAccounted(fs: Fs, source: Path, dest: Path)
    requires Accounted(fs)
    ensures Accounted(Rename(fs, source, dest).0)
  {
    var o, n := Norm(source), Norm(dest);
    if o != n && o in fs.nodes && ParentError(fs.nodes, n) == 0 {
      ClearAccounted(fs, o, n);
      var (fs', e) := ClearDest(fs, o, n);
      if e == 0 {
        SumRemove(fs'.nodes, o);
        SumUpdate(fs'.nodes - {o}, n, fs'.nodes[o]);
      }
    }
  }

  /** Rename keeps the tree well formed exactly when it does neither. */
  lemma RenameTreeIff(fs: Fs, source: Path, dest: Path)
    requires Accounted(fs) && TreeOk(fs.nodes)
    ensures TreeOk(Rename(fs, source, dest).0.nodes) <==> !Uproots(fs.nodes, Norm(source), Norm(dest))
  {
    var o, n := Norm(source), Norm(dest);
    RenameExact(fs, source, dest, o);
    if o != n && o in fs.nodes && ParentError(fs.nodes, n) == 0 {
      ClearAccounted(fs, o, n);
      ClearTree(fs, o, n);
      var (fs', e) := ClearDest(fs, o, n);
      if e == 0 && !(fs.nodes[o].isDir && HasChildren(fs'.nodes, o)) {
        MoveTree(fs'.nodes, o, n);
      }
    }
  }

  lemma MoveTree(nodes: map<Path, Node>, o: Path, n: Path)
    requires TreeOk(nodes) && o in nodes && n !in nodes && ParentIsDir(nodes, n)
    requires !nodes[o].isDir || !HasChildren(nodes, o)
    ensures TreeOk((nodes - {o})[n := nodes[o]]) <==> !IsRoot(o) && Parent(n) != o
  {
    var m := (nodes - {o})[n := nodes[o]];
    NotARoot(nodes, n);
    if !IsRoot(o) && Parent(n) != o {
      RemoveTree(nodes, o);
      InsertTree(nodes - {o}, n, nodes[o]);
    } else if !IsRoot(o) {
      assert n in m && !ParentIsDir(m, n);
    }
  }

  /** When a rename succeeds, and what it then does: the node stands under its new name and no other name changed. */
  lemma RenameExact(fs: Fs, source: Path, dest: Path, k: Path)
    ensures var o, n, r := Norm(source), Norm(dest), Rename(fs, source, dest);
            && (r.1 == 0 <==> o == n || Renamable(fs.nodes, o, n))
            && (r.1 == 0 && o != n ==> n in r.0.nodes && r.0.nodes[n] == fs.nodes[o] && o !in r.0.nodes)
            && (r.1 == 0 && k != o && k != n ==>
                  (k in r.0.nodes <==> k in fs.nodes) && (k in fs.nodes ==> r.0.nodes[k] == fs.nodes[k]))
            && r.0.open == fs.open
  {
    var o, n := Norm(source), Norm(dest);
    if o in fs.nodes && n !in fs.nodes {
      assert fs.nodes - {n} == fs.nodes;
    }
  }

  /** A rename both fails and changes something exactly when a full directory is to replace an empty one: that one is gone. */
  lemma RenameErrorIff(fs: Fs, source: Path, dest: Path)
    requires Accounted(fs)
    ensures var o, n, r := Norm(source), Norm(dest), Rename(fs, source, dest);
            && (r.1 != 0 && r.0 != fs <==> Clobbers(fs.nodes, o, n))
            && (Clobbers(fs.nodes, o, n) ==> r == (fs.(nodes := fs.nodes - {n}), EINVAL))
  {
    var o, n := Norm(source), Norm(dest);
    RenameExact(fs, source, dest, o);
    if Clobbers(fs.nodes, o, n) {
      assert n !in (fs.nodes - {n});
    } else if o in fs.nodes && n !in fs.nodes {
      assert fs.nodes - {n} == fs.nodes;
    }
  }

  // ---------- All calls ----------

  lemma ResizeKeeps(fs: Fs, path: Path, len: nat)
    requires Accounted(fs)
    ensures Accounted(ResizePath(fs, path, len).0)
    ensures TreeOk(fs.nodes) ==> TreeOk(ResizePath(fs, path, len).0.nodes)
  {
    if path in fs.nodes && !fs.nodes[path].isDir {
      var node := fs.nodes[path].(data := Resize(fs.nodes[path].data, len));
      SumUpdate(fs.nodes, path, node);
      if TreeOk(fs.nodes) {
        DataTree(fs.nodes, path, node);
      }
    }
  }

  lemma WriteKeeps(fs: Fs, path: Path, at: nat, buf: Bytes)
    requires Accounted(fs)
    ensures Accounted(WriteAt(fs, path, at, buf).0)
    ensures TreeOk(fs.nodes) ==> TreeOk(WriteAt(fs, path, at, buf).0.nodes)
  {
    WriteAccounted(fs, path, at, buf);
    if path in fs.nodes && !fs.nodes[path].isDir && TreeOk(fs.nodes) {
      var data := fs.nodes[path].data;
      var n := Fits(|data|, fs.total, at, |buf|);
      DataTree(fs.nodes, path, fs.nodes[path].(data := Patch(data, at, buf[..n])));
    }
  }

  lemma OpenKeeps(fs: Fs, path: Path, flags: Flags, mode: nat)
    requires Accounted(fs)
    ensures Accounted(Open(fs, path, flags, mode).0)
    ensures TreeOk(fs.nodes) ==> TreeOk(Open(fs, path, flags, mode).0.nodes)
  {
    var n := Norm(path);
    if n in fs.nodes {
      SumUpdate(fs.nodes, n, fs.nodes[n].(data := []));
      if TreeOk(fs.nodes) {
        DataTree(fs.nodes, n, fs.nodes[n].(data := []));
      }
    } else if ParentError(fs.nodes, n) == 0 {
      var node := Node(false, [], Perm(mode, 0x1A4));
      SumUpdate(fs.nodes, n, node);
      if TreeOk(fs.nodes) {
        InsertTree(fs.nodes, n, node);
      }
    }
  }

  lemma RemovalKeeps(fs: Fs, path: Path)
    requires Accounted(fs)
    ensures Accounted(Unlink(fs, path).0) && Accounted(Rmdir(fs, path).0)
    ensures TreeOk(fs.nodes) ==> TreeOk(Unlink(fs, path).0.nodes) && TreeOk(Rmdir(fs, path).0.nodes)
  {
    var n := Norm(path);
    if n in fs.nodes {
      SumRemove(fs.nodes, n);
      if TreeOk(fs.nodes) && !IsRoot(n) && (!fs.nodes[n].isDir || !HasChildren(fs.nodes, n)) {
        RemoveTree(fs.nodes, n);
      }
    }
  }

  lemma MkdirKeeps(fs: Fs, path: Path, mode: nat)
    requires Accounted(fs)
    ensures Accounted(Mkdir(fs, path, mode).0)
    ensures TreeOk(fs.nodes) ==> TreeOk(Mkdir(fs, path, mode).0.nodes)
  {
    var n := Norm(path);
    if n !in fs.nodes && ParentError(fs.nodes, n) == 0 {
      var node := Node(true, [], Perm(mode, 0x1ED));
      SumUpdate(fs.nodes, n, node);
      if TreeOk(fs.nodes) {
        InsertTree(fs.nodes, n, node);
      }
    }
  }

  ghost predicate Safe(fs: Fs, call: Call) {
    call.CallRename? ==> !Uproots(fs.nodes, Norm(call.path), Norm(call.dest))
  }

  lemma FdCallKeeps(fs: Fs, call: Call)
    requires Accounted(fs)
    requires call.CallWrite? || call.CallPwrite? || call.CallRead? || call.CallSeek? || call.CallFtruncate? || call.CallClose?
    ensures Accounted(Apply(fs, call)) && (TreeOk(fs.nodes) ==> TreeOk(Apply(fs, call).nodes))
  {
    var i := FindFd(fs.open, call.fd, 0);
    if i < |fs.open| {
      var o := fs.open[i];
      match call
      case CallWrite(fd, buf) =>
        WriteKeeps(fs, o.path, if !o.append then o.pos else if o.path in fs.nodes then |fs.nodes[o.path].data| else 0, buf);
      case CallPwrite(fd, buf, at) => WriteKeeps(fs, o.path, at, buf);
      case CallFtruncate(fd, len) => ResizeKeeps(fs, o.path, len);
      case _ =>
    }
  }

  lemma CallKeeps(fs: Fs, call: Call)
    requires Accounted(fs)
    ensures Accounted(Apply(fs, call))
    ensures TreeOk(fs.nodes) && Safe(fs, call) ==> TreeOk(Apply(fs, call).nodes)
  {
    match call
    case CallOpen(path, flags, mode) => OpenKeeps(fs, path, flags, mode);
    case CallTruncate(path, len) => ResizeKeeps(fs, Norm(path), len);
    case CallUnlink(path) => RemovalKeeps(fs, path);
    case CallRename(path, dest) =>
      RenameAccounted(fs, path, dest);
      if TreeOk(fs.nodes) {
        RenameTreeIff(fs, path, dest);
      }
    case CallMkdir(path, mode) => MkdirKeeps(fs, path, mode);
    case CallRmdir(path) => RemovalKeeps(fs, path);
    case _ => FdCallKeeps(fs, call);
  }

  // ---------- Runs ----------

  ghost predicate IsRun(run: seq<Fs>, calls: seq<Call>) {
    && |run| == |calls| + 1 && run[0] == Mounted()
    && forall i :: 0 <= i < |calls| ==> run[i + 1] == Apply(run[i], calls[i])
  }

  ghost predicate SafeRun(run: seq<Fs>, calls: seq<Call>) {
    IsRun(run, calls) && forall i :: 0 <= i < |calls| ==> Safe(run[i], calls[i])
  }

  lemma MountedOk()
    ensures Accounted(Mounted()) && TreeOk(Mounted().nodes)
  {
    var fs := Mounted();
    SumRemove(fs.nodes, "/tmp");
    SumRemove(fs.nodes - {"/tmp"}, "/dev/shm");
    assert fs.nodes - {"/tmp"} - {"/dev/shm"} == map[];
  }

  /** In every run, the byte counter is the sum of the file lengths and within the cap. */
  lemma {:induction false} AccountedAlways(run: seq<Fs>, calls: seq<Call>, i: nat)
    requires IsRun(run, calls) && i < |run|
    ensures Accounted(run[i])
  {
    if i == 0 {
      MountedOk();
    } else {
      AccountedAlways(run, calls, i - 1);
      assert run[i - 1 + 1] == Apply(run[i - 1], calls[i - 1]);
      CallKeeps(run[i - 1], calls[i - 1]);
    }
  }

  /** In every run without an uprooting rename, the tree is well formed and both mounts survive. */
  lemma {:induction false} TreeAlways(run: seq<Fs>, calls: seq<Call>, i: nat)
    requires SafeRun(run, calls) && i < |run|
    ensures TreeOk(run[i].nodes)
  {
    if i == 0 {
      MountedOk();
    } else {
      TreeAlways(run, calls, i - 1);
      AccountedAlways(run, calls, i - 1);
      assert Safe(run[i - 1], calls[i - 1]) && run[i - 1 + 1] == Apply(run[i - 1], calls[i - 1]);
      CallKeeps(run[i - 1], calls[i - 1]);
    }
  }

  /** ... and in no such state does a file have anything beneath it. */
  lemma FilesAreLeaves(run: seq<Fs>, calls: seq<Call>, i: nat, f: Path, k: Path)
    requires SafeRun(run, calls) && i < |run|
    requires f in run[i].nodes && !run[i].nodes[f].isDir && k in run[i].nodes
    ensures !Under(f, k)
  {
    TreeAlways(run, calls, i);
    if Under(f, k) {
      AncestorIsDir(run[i].nodes, f, k);
    }
  }
}
