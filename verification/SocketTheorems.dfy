/** Ownership of TCP handles and descriptor numbers over whole runs, and exactly what leaks them. */
module SocketTheorems {
  import opened Wrappers
  import opened Lists
  import opened Tallies
  import opened SocketModel

  // ---------- Handles entering and leaving the set ----------

  lemma {:induction false} InstallKeys(net: map<int, Entry>, hs: seq<int>, h: int)
    requires AllFresh(net, hs)
    ensures h in Install(net, hs) <==> h in net || h in hs
    ensures Count(hs, h) <= 1 && (h in net ==> Count(hs, h) == 0)
    decreases |hs|
  {
    if hs != [] {
      InstallKeys(net[hs[0] := Tcp(Listen)], hs[1..], h);
    }
  }

  lemma {:induction false} RemoveKeys(net: map<int, Entry>, hs: seq<int>, h: int)
    ensures h in RemoveAll(net, hs) <==> h in net && h !in hs
  {
    if hs != [] {
      RemoveKeys(net - {hs[0]}, hs[1..], h);
    }
  }

  // ---------- Garbage collection ----------

  /** A pass removes exactly the finished handles of the list, from the list and from the set. */
  lemma {:induction false} GcExact(net: map<int, Entry>, closing: seq<int>, i: nat, h: int)
    requires i <= |closing| && Count(closing, h) <= 1
    requires forall k :: i <= k < |closing| ==> closing[k] in net && Count(closing, closing[k]) <= 1
    ensures var (net', closing') := Gc(net, closing, i);
            var gone := h in closing[i..] && h in net && (net[h] == Tcp(Closed) || net[h] == Tcp(TimeWait));
            && (h in net' <==> h in net && !gone) && (h in net' ==> net'[h] == net[h])
            && Count(closing', h) == Count(closing, h) - if gone then 1 else 0
    decreases |closing| - i
  {
    if i < |closing| {
      var h0 := closing[i];
      assert closing[i..] == [h0] + closing[i + 1..];
      if Finished(net, h0) {
        var c := SwapRemove(closing, i);
        TallySwapRemove(closing, i, Is, h);
        TallySwapRemove(closing, i, Is, h0);
        CountIn(c, h0);
        forall k | i <= k < |c| ensures c[k] in net - {h0} && Count(c, c[k]) <= 1 {
          assert c[k] == closing[if k == i then |closing| - 1 else k];
          assert c[k] in c;
          TallySwapRemove(closing, i, Is, c[k]);
        }
        if h != h0 {
          SwapTail(closing, i, h);
        }
        GcExact(net - {h0}, c, i, h);
      } else {
        GcExact(net, closing, i + 1, h);
      }
    }
  }

  /** The unscanned part loses the scanned element, except where that occurs again. */
  lemma SwapTail(s: seq<int>, i: nat, x: int)
    requires i < |s| && x != s[i]
    ensures x in SwapRemove(s, i)[i..] <==> x in s[i..]
  {
    var t, n := SwapRemove(s, i), |s| - 1;
    if x in s[i..] {
      var k :| i <= k < |s| && s[k] == x;
      assert t[i..][(if k == n then i else k) - i] == x;
    }
    if x in t[i..] {
      var k :| i <= k < |t| && t[k] == x;
      assert s[i..][(if k == i then n else k) - i] == x;
    }
  }

  // ---------- Every section keeps ownership ----------

  lemma SocketNetKeeps(s: State, kind: Kind, h: int)
    requires Inv(s) && Enabled(s, SocketNet(kind, h))
    ensures Inv(Apply(s, SocketNet(kind, h)))
  {
    var r := Apply(s, SocketNet(kind, h));
    forall x ensures Owners(r, x) == if x in r.net then 1 else 0 {
      TallyAppend(s.calls, Got(h, kind), CallHolds, x);
    }
    forall x ensures Places(r, x) == Places(s, x) {
      TallyAppend(s.calls, Got(h, kind), CallFd, x);
    }
  }

  /** A number is the one recycled last, or new if there is none; no other place holds it. */
  lemma AllocOnce(s: State, fd: int)
    requires FdsOnce(s)
    ensures var (r, n) := AllocFd(s);
            && r == s.(recycled := r.recycled, nextFd := r.nextFd) && FIRST_FD <= n < r.nextFd
            && Places(r, fd) + Is(n, fd) == (if FIRST_FD <= fd < r.nextFd then 1 else 0)
            && (s.recycled != [] ==> s.recycled == r.recycled + [n] && r.nextFd == s.nextFd)
            && (s.recycled == [] ==> n == s.nextFd && r.nextFd == n + 1)
  {
    if s.recycled != [] {
      var n := |s.recycled| - 1;
      assert s.recycled == s.recycled[..n] + [s.recycled[n]];
      TallyAppend(s.recycled[..n], s.recycled[n], Is, fd);
      TallyAppend(s.recycled[..n], s.recycled[n], Is, s.recycled[n]);
      assert Places(s, s.recycled[n]) >= 1;
    }
    assert Places(s, fd) == if FIRST_FD <= fd < s.nextFd then 1 else 0;
  }

  lemma TakeFdKeeps(s: State, i: nat)
    requires Inv(s) && Enabled(s, TakeFd(i))
    ensures Inv(Apply(s, TakeFd(i)))
  {
    var r := Apply(s, TakeFd(i));
    var c := r.calls[i];
    forall x ensures Owners(r, x) == Owners(s, x) {
      TallyUpdate(s.calls, i, c, CallHolds, x);
    }
    forall x ensures Places(r, x) == if FIRST_FD <= x < r.nextFd then 1 else 0 {
      TallyUpdate(s.calls, i, c, CallFd, x);
      AllocOnce(s, x);
    }
  }

  lemma PushKeeps(s: State, i: nat)
    requires Inv(s) && Enabled(s, Push(i))
    ensures Inv(Apply(s, Push(i)))
  {
    var c, r := s.calls[i], Apply(s, Push(i));
    var sock := Sock(c.fd, c.kind, c.handle, []);
    forall x ensures Owners(r, x) == Owners(s, x) && Places(r, x) == Places(s, x) {
      TallyRemove(s.calls, i, CallHolds, x);
      TallyAppend(s.sockets, sock, SockHolds, x);
      TallyRemove(s.calls, i, CallFd, x);
      TallyAppend(s.sockets, sock, SockFd, x);
    }
  }

  lemma CloseRemoveKeeps(s: State, i: nat)
    requires Inv(s) && Enabled(s, CloseRemove(i))
    ensures Inv(Apply(s, CloseRemove(i)))
  {
    var sock, r := s.sockets[i], Apply(s, CloseRemove(i));
    forall x ensures Owners(r, x) == Owners(s, x) && Places(r, x) == Places(s, x) {
      TallyRemove(s.sockets, i, SockHolds, x);
      TallyAppend(s.calls, Taken(sock), CallHolds, x);
      TallyRemove(s.sockets, i, SockFd, x);
      TallyAppend(s.calls, Taken(sock), CallFd, x);
    }
  }

  lemma CloseRecycleKeeps(s: State, i: nat)
    requires Inv(s) && Enabled(s, CloseRecycle(i))
    ensures Inv(Apply(s, CloseRecycle(i)))
  {
    var sock, r := s.calls[i].sock, Apply(s, CloseRecycle(i));
    forall x ensures Owners(r, x) == Owners(s, x) && Places(r, x) == Places(s, x) {
      TallyUpdate(s.calls, i, Recycled(sock), CallHolds, x);
      TallyUpdate(s.calls, i, Recycled(sock), CallFd, x);
      TallyAppend(s.recycled, sock.fd, Is, x);
    }
  }

  lemma GivenUp(s: State, sock: Sock, x: int)
    ensures var r := Dispose(s, sock);
            if sock.kind == TcpStream then r.net == s.net && r.closing == s.closing + [sock.handle]
            else r.closing == s.closing && (x in r.net <==> x in s.net && SockHolds(sock, x) == 0)
  {
    if sock.kind == TcpListener {
      RemoveKeys(s.net, [sock.handle] + sock.backlog, x);
      CountIn(sock.backlog, x);
    }
  }

  lemma DisposeOwner(s: State, i: nat, x: int)
    requires HandlesOwned(s) && Enabled(s, CloseDispose(i))
    ensures var r := Apply(s, CloseDispose(i));
            Owners(r, x) == if x in r.net then 1 else 0
  {
    var sock := s.calls[i].sock;
    TallyRemove(s.calls, i, CallHolds, x);
    assert CallHolds(s.calls[i], x) == SockHolds(sock, x);
    assert Owners(s, x) == if x in s.net then 1 else 0;
    TallyAppend(s.closing, sock.handle, Is, x);
    GivenUp(s.(calls := RemoveAt(s.calls, i)), sock, x);
  }

  /** The handles a closed listener or datagram socket gives up leave the set, and nobody else's do. */
  lemma CloseDisposeKeeps(s: State, i: nat)
    requires Inv(s) && Enabled(s, CloseDispose(i))
    ensures Inv(Apply(s, CloseDispose(i)))
  {
    var r := Apply(s, CloseDispose(i));
    forall x ensures Owners(r, x) == if x in r.net then 1 else 0 {
      DisposeOwner(s, i, x);
    }
    forall x ensures Places(r, x) == Places(s, x) {
      TallyRemove(s.calls, i, CallFd, x);
    }
  }

  /** Every handle a closing listener removes is in the set when its turn comes. */
  lemma PoolPresent(s: State, i: nat, k: nat)
    requires Inv(s) && Enabled(s, CloseDispose(i)) && s.calls[i].sock.kind == TcpListener
    requires k < |s.calls[i].sock.backlog|
    ensures var sock := s.calls[i].sock;
            sock.handle in s.net && sock.backlog[k] in RemoveAll(s.net, [sock.handle] + sock.backlog[..k])
  {
    var sock := s.calls[i].sock;
    var x := sock.backlog[k];
    TallyAtLeast(s.calls, i, CallHolds, x);
    TallyAtLeast(s.calls, i, CallHolds, sock.handle);
    CountIn(sock.backlog, x);
    assert Owners(s, x) <= 1 && Owners(s, sock.handle) <= 1;
    TallySplit(sock.backlog, k, Is, x);
    CountIn(sock.backlog[..k], x);
    RemoveKeys(s.net, [sock.handle] + sock.backlog[..k], x);
  }

  lemma ClosingOnce(s: State, x: int)
    requires HandlesOwned(s)
    ensures Count(s.closing, x) <= 1 && (x in s.closing ==> x in s.net)
  {
    CountIn(s.closing, x);
    assert Owners(s, x) <= 1;
  }

  lemma GcKeeps(s: State)
    requires Inv(s)
    ensures Inv(Apply(s, GcStep))
  {
    var r := Apply(s, GcStep);
    forall k | 0 <= k < |s.closing| ensures s.closing[k] in s.net && Count(s.closing, s.closing[k]) <= 1 {
      ClosingOnce(s, s.closing[k]);
    }
    forall x ensures Owners(r, x) == if x in r.net then 1 else 0 {
      ClosingOnce(s, x);
      CountIn(s.closing, x);
      GcExact(s.net, s.closing, 0, x);
      assert s.closing[0..] == s.closing;
    }
    forall x ensures Places(r, x) == Places(s, x) {}
  }

  // ---------- Accept ----------

  lemma {:induction false} NoReadySlot(net: map<int, Entry>, backlog: seq<int>, k: nat, q: nat)
    requires k <= q < |backlog| && q < ReadySlot(net, backlog, k)
    ensures !Ready(net, backlog[q])
    decreases |backlog| - k
  {
    if k < q {
      NoReadySlot(net, backlog, k + 1, q);
    }
  }

  /** The handle holds a connection: established, or closed by the other side only. */
  predicate Connected(net: map<int, Entry>, h: int) {
    h in net && (net[h] == Tcp(Established) || net[h] == Tcp(CloseWait))
  }

  /** The slot of the pool that an accept takes: the primary if it holds a connection, else the first spare that does. */
  predicate TakesSlot(net: map<int, Entry>, sock: Sock, j: int) {
    if j == -1 then Connected(net, sock.handle)
    else 0 <= j < |sock.backlog| && Connected(net, sock.backlog[j]) && !Connected(net, sock.handle)
         && forall k :: 0 <= k < j ==> !Connected(net, sock.backlog[k])
  }

  /** Nothing is captured exactly when no slot of the pool holds a connection. Otherwise that slot's handle is, the
      fresh listener takes its place, and every other slot stays. */
  lemma CaptureExact(net: map<int, Entry>, sock: Sock, spare: int)
    ensures var (now, got) := Capture(net, sock, spare);
            && now == sock.(handle := now.handle, backlog := now.backlog) && |now.backlog| == |sock.backlog|
            && (got.None? <==> !Connected(net, sock.handle)
                               && forall k :: 0 <= k < |sock.backlog| ==> !Connected(net, sock.backlog[k]))
            && (got.None? ==> now == sock) && (got.Some? ==> Connected(net, got.value))
    ensures forall j :: TakesSlot(net, sock, j) ==>
              Capture(net, sock, spare) == if j == -1 then (sock.(handle := spare), Some(sock.handle))
                                           else (sock.(backlog := sock.backlog[j := spare]), Some(sock.backlog[j]))
  {
    if !Ready(net, sock.handle) {
      var i := ReadySlot(net, sock.backlog, 0);
      forall k | 0 <= k < i ensures !Ready(net, sock.backlog[k]) {
        NoReadySlot(net, sock.backlog, 0, k);
      }
    }
  }

  /** The pool loses the captured handle and gains the spare one. */
  lemma CaptureHolds(net: map<int, Entry>, sock: Sock, spare: int, x: int)
    requires PoolOk(sock)
    ensures var (now, got) := Capture(net, sock, spare);
            PoolOk(now) && (got.Some? ==> SockHolds(now, x) + Is(got.value, x) == SockHolds(sock, x) + Is(spare, x))
  {
    if !Ready(net, sock.handle) {
      var j := ReadySlot(net, sock.backlog, 0);
      if j < |sock.backlog| {
        TallyUpdate(sock.backlog, j, spare, Is, x);
      }
    }
  }

  lemma AcceptKeeps(s: State, i: nat, spare: int)
    requires Inv(s) && Enabled(s, AcceptStep(i, spare))
    ensures Inv(Apply(s, AcceptStep(i, spare)))
  {
    var was, r := s.sockets[i], Apply(s, AcceptStep(i, spare));
    var (now, got) := Capture(s.net, was, spare);
    CaptureExact(s.net, was, spare);
    assert PoolOk(was);
    if got.Some? {
      var c := Got(got.value, TcpStream);
      CaptureHolds(s.net, was, spare, spare);
      forall x ensures Owners(r, x) == if x in r.net then 1 else 0 {
        CaptureHolds(s.net, was, spare, x);
        TallyUpdate(s.sockets, i, now, SockHolds, x);
        TallyAppend(s.calls, c, CallHolds, x);
      }
      forall x ensures Places(r, x) == Places(s, x) {
        TallyUpdate(s.sockets, i, now, SockFd, x);
        TallyAppend(s.calls, c, CallFd, x);
      }
    }
  }

  /** A captured connection is in no pool any more, nor in the closing list: only the capturing call has it. */
  lemma CapturedOnce(s: State, i: nat, spare: int, k: nat)
    requires Inv(s) && Enabled(s, AcceptStep(i, spare)) && Capture(s.net, s.sockets[i], spare).1.Some?
    requires k < |s.sockets|
    ensures var r, h := Apply(s, AcceptStep(i, spare)), Capture(s.net, s.sockets[i], spare).1.value;
            && r.calls == s.calls + [Got(h, TcpStream)] && h in r.net && r.net == s.net[spare := Tcp(Listen)]
            && SockHolds(r.sockets[k], h) == 0 && h !in r.closing && Tally(s.calls, CallHolds, h) == 0
  {
    var r, h := Apply(s, AcceptStep(i, spare)), Capture(s.net, s.sockets[i], spare).1.value;
    AcceptKeeps(s, i, spare);
    CaptureExact(s.net, s.sockets[i], spare);
    TallyAppend(s.calls, Got(h, TcpStream), CallHolds, h);
    assert Owners(r, h) == 1;
    TallyAtLeast(r.sockets, k, SockHolds, h);
    CountIn(r.closing, h);
  }

  // ---------- Listen and connect ----------

  lemma {:induction false} InstallListens(net: map<int, Entry>, hs: seq<int>, h: int)
    requires AllFresh(net, hs)
    ensures h in hs ==> h in Install(net, hs) && Install(net, hs)[h] == Tcp(Listen)
    ensures h in net ==> h in Install(net, hs) && Install(net, hs)[h] == net[h]
    decreases |hs|
  {
    if hs != [] {
      InstallListens(net[hs[0] := Tcp(Listen)], hs[1..], h);
    }
  }

  /** listen makes the socket a listener in any case; if it succeeds, with a pool of fresh handles that all listen. */
  lemma ListenExact(s: State, i: nat, ok: bool, hs: seq<int>, h: int)
    requires Enabled(s, ListenStep(i, ok, hs))
    ensures var r := Apply(s, ListenStep(i, ok, hs));
            && r.sockets == s.sockets[i := r.sockets[i]] && r.calls == s.calls && r.closing == s.closing
            && r.sockets[i] == Sock(s.sockets[i].fd, TcpListener, s.sockets[i].handle, if ok then hs else s.sockets[i].backlog)
            && (!ok ==> r.net == s.net)
            && (ok && h in hs ==> h !in s.net && h in r.net && r.net[h] == Tcp(Listen))
            && (h in s.net ==> h in r.net && r.net[h] == s.net[h])
  {
    InstallListens(s.net, hs, h);
    InstallKeys(s.net, hs, h);
    CountIn(hs, h);
  }

  /** A successful listen leaks exactly the pool that was there: it is safe iff there was none. */
  lemma ListenOwnedIff(s: State, i: nat, ok: bool, hs: seq<int>)
    requires Inv(s) && Enabled(s, ListenStep(i, ok, hs))
    ensures FdsOnce(Apply(s, ListenStep(i, ok, hs))) && Pools(Apply(s, ListenStep(i, ok, hs)))
    ensures HandlesOwned(Apply(s, ListenStep(i, ok, hs))) <==> !ok || s.sockets[i].backlog == []
  {
    var was, r := s.sockets[i], Apply(s, ListenStep(i, ok, hs));
    var now := r.sockets[i];
    assert PoolOk(was);
    forall x ensures Places(r, x) == Places(s, x) {
      TallyUpdate(s.sockets, i, now, SockFd, x);
    }
    forall x ensures Owners(r, x) == Owners(s, x) - SockHolds(was, x) + SockHolds(now, x) {
      TallyUpdate(s.sockets, i, now, SockHolds, x);
    }
    if ok && was.backlog != [] {
      var x := was.backlog[0];
      CountIn(was.backlog, x);
      TallyAtLeast(s.sockets, i, SockHolds, x);
      InstallKeys(s.net, hs, x);
      assert Owners(s, x) == 1;
      assert Owners(r, x) == 0 && x in r.net;
    } else if ok {
      forall x ensures Owners(r, x) == if x in r.net then 1 else 0 {
        InstallKeys(s.net, hs, x);
        CountIn(hs, x);
      }
    }
  }

  /** Connecting a listener forgets its pool: it is safe iff there is none. */
  lemma ConnectOwnedIff(s: State, i: nat)
    requires Inv(s) && Enabled(s, ConnectStep(i))
    ensures FdsOnce(Apply(s, ConnectStep(i)))
    ensures HandlesOwned(Apply(s, ConnectStep(i))) && Pools(Apply(s, ConnectStep(i))) <==> s.sockets[i].backlog == []
    ensures HandlesOwned(Apply(s, ConnectStep(i))) <==> s.sockets[i].backlog == []
  {
    var was, r := s.sockets[i], Apply(s, ConnectStep(i));
    var now := r.sockets[i];
    assert PoolOk(was);
    forall x ensures Places(r, x) == Places(s, x) {
      TallyUpdate(s.sockets, i, now, SockFd, x);
    }
    forall x ensures Owners(r, x) == Owners(s, x) - SockHolds(was, x) + SockHolds(now, x) {
      TallyUpdate(s.sockets, i, now, SockHolds, x);
    }
    if was.backlog != [] {
      var x := was.backlog[0];
      CountIn(was.backlog, x);
      TallyAtLeast(s.sockets, i, SockHolds, x);
      assert Owners(s, x) == 1;
      assert Owners(r, x) == 0 && x in r.net;
    }
  }

  /** Any second successful listen leaves all 63 spare handles of the first one in the set without an owner. */
  lemma ListenTwiceLeaks(s: State, i: nat, hs: seq<int>, more: seq<int>, k: nat)
    requires Inv(s) && Enabled(s, ListenStep(i, true, hs)) && s.sockets[i].backlog == [] && k < |hs|
    requires Enabled(Apply(s, ListenStep(i, true, hs)), ListenStep(i, true, more))
    ensures var t := Apply(Apply(s, ListenStep(i, true, hs)), ListenStep(i, true, more));
            hs[k] in t.net && Owners(t, hs[k]) == 0
  {
    var r, x := Apply(s, ListenStep(i, true, hs)), hs[k];
    ListenOwnedIff(s, i, true, hs);
    var t := Apply(r, ListenStep(i, true, more));
    assert r.sockets[i].backlog == hs && r.sockets[i].kind == TcpListener;
    CountIn(hs, x);
    InstallKeys(s.net, hs, x);
    InstallKeys(r.net, more, x);
    CountIn(more, x);
    TallyAtLeast(r.sockets, i, SockHolds, x);
    assert Owners(r, x) == 1;
    TallyUpdate(r.sockets, i, t.sockets[i], SockHolds, x);
  }

  /** Connecting a listener leaves all its spare handles in the set without an owner. */
  lemma ConnectLeaks(s: State, i: nat, k: nat)
    requires Inv(s) && Enabled(s, ConnectStep(i)) && k < |s.sockets[i].backlog|
    ensures var t, h := Apply(s, ConnectStep(i)), s.sockets[i].backlog[k];
            h in t.net && Owners(t, h) == 0
  {
    var was, r := s.sockets[i], Apply(s, ConnectStep(i));
    var x := was.backlog[k];
    assert PoolOk(was);
    CountIn(was.backlog, x);
    TallyAtLeast(s.sockets, i, SockHolds, x);
    assert Owners(s, x) == 1;
    TallyUpdate(s.sockets, i, r.sockets[i], SockHolds, x);
  }

  // ---------- Runs ----------

  /** listen is called once per socket, and connect never on a listener with a pool. */
  predicate Safe(s: State, step: Step) {
    match step
    case ListenStep(i, ok, hs) => ok && i < |s.sockets| ==> s.sockets[i].backlog == []
    case ConnectStep(i) => i < |s.sockets| ==> s.sockets[i].backlog == []
    case _ => true
  }

  lemma StepKeeps(s: State, step: Step)
    requires Inv(s) && Enabled(s, step) && Safe(s, step)
    ensures Inv(Apply(s, step))
  {
    match step
    case SocketNet(kind, h) => SocketNetKeeps(s, kind, h);
    case TakeFd(i) => TakeFdKeeps(s, i);
    case Push(i) => PushKeeps(s, i);
    case ListenStep(i, ok, hs) => ListenOwnedIff(s, i, ok, hs);
    case ConnectStep(i) => ConnectOwnedIff(s, i);
    case AcceptStep(i, spare) => AcceptKeeps(s, i, spare);
    case CloseRemove(i) => CloseRemoveKeeps(s, i);
    case CloseRecycle(i) => CloseRecycleKeeps(s, i);
    case CloseDispose(i) => CloseDisposeKeeps(s, i);
    case GcStep => GcKeeps(s);
    case NetChange(h, st) =>
      forall x ensures Owners(Apply(s, step), x) == Owners(s, x) {}
      forall x ensures Places(Apply(s, step), x) == Places(s, x) {}
  }

  ghost predicate StepAt(s: State, step: Step, t: State) {
    Enabled(s, step) && Safe(s, step) && t == Apply(s, step)
  }

  ghost predicate IsRun(run: seq<State>, steps: seq<Step>) {
    && |run| == |steps| + 1 && run[0] == State(map[], [], [], FIRST_FD, [], [])
    && forall i :: 0 <= i < |steps| ==> StepAt(run[i], steps[i], run[i + 1])
  }

  /** In every such run each handle has one owner and each descriptor number one place. */
  lemma {:induction false} OwnedAlways(run: seq<State>, steps: seq<Step>, i: nat)
    requires IsRun(run, steps) && i < |run|
    ensures Inv(run[i])
  {
    if i > 0 {
      OwnedAlways(run, steps, i - 1);
      assert StepAt(run[i - 1], steps[i - 1], run[i - 1 + 1]);
      StepKeeps(run[i - 1], steps[i - 1]);
    }
  }

  /** ... so no two open sockets share a descriptor number, and no open number is also recycled. */
  lemma OpenFdsDistinct(run: seq<State>, steps: seq<Step>, i: nat, j: nat, k: nat)
    requires IsRun(run, steps) && i < |run| && j < |run[i].sockets|
    ensures k < |run[i].sockets| && k != j ==> run[i].sockets[j].fd != run[i].sockets[k].fd
    ensures run[i].sockets[j].fd !in run[i].recycled
  {
    OwnedAlways(run, steps, i);
    var s := run[i];
    var fd := s.sockets[j].fd;
    assert Places(s, fd) <= 1;
    TallyRemove(s.sockets, j, SockFd, fd);
    CountIn(s.recycled, fd);
    if k < |s.sockets| && k != j {
      var k' := if k < j then k else k - 1;
      assert RemoveAt(s.sockets, j)[k'] == s.sockets[k];
      TallyAtLeast(RemoveAt(s.sockets, j), k', SockFd, fd);
    }
  }
}
