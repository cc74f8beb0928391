/**
 Which accepts hand out a connection a second time. One accept takes a handle out of every pool, and no
 pool ever gets it back while it is in the set; but accept looks at a socket's primary handle first, and
 that may itself be a connection accepted earlier.
 */
module SocketCapture {
  import opened Wrappers
  import opened Lists
  import opened Tallies
  import opened SocketModel
  import opened SocketTheorems

  /** The handle that a step captures. */
  function Captured(s: State, step: Step): Option<int> {
    if step.AcceptStep? && step.i < |s.sockets| then Capture(s.net, s.sockets[step.i], step.spare).1 else None
  }

  // ---------- No pool gets a captured handle back ----------

  predicate OutOfPool(c: InFlight, h: int) { c.Taken? || c.Recycled? ==> h !in c.sock.backlog }

  ghost predicate InNoPool(s: State, h: int) {
    && (forall k :: 0 <= k < |s.sockets| ==> h !in s.sockets[k].backlog)
    && (forall k :: 0 <= k < |s.calls| ==> OutOfPool(s.calls[k], h))
  }

  lemma PoolsStay(s: State, step: Step, h: int)
    requires Enabled(s, step) && h in s.net && InNoPool(s, h)
    ensures InNoPool(Apply(s, step), h)
  {
    match step {
      case ListenStep(i, ok, hs) =>
        InstallKeys(s.net, hs, h);
        CountIn(hs, h);
      case CloseRecycle(i) => assert OutOfPool(s.calls[i], h);
      case CloseDispose(i) => DisposeStays(s, i, h);
      case _ =>
    }
  }

  lemma DisposeStays(s: State, i: nat, h: int)
    requires Enabled(s, CloseDispose(i)) && InNoPool(s, h)
    ensures InNoPool(Apply(s, CloseDispose(i)), h)
  {
    var t := s.(calls := RemoveAt(s.calls, i));
    assert InNoPool(t, h);
  }

  lemma HoldsPool(sock: Sock, h: int)
    requires PoolOk(sock) && SockHolds(sock, h) == 0
    ensures h !in sock.backlog
  {
    CountIn(sock.backlog, h);
  }

  /** Right after the accept no pool has the captured handle. */
  lemma CapturedInNoPool(s: State, step: Step)
    requires Inv(s) && Enabled(s, step) && Captured(s, step).Some?
    ensures Captured(s, step).value in s.net && InNoPool(Apply(s, step), Captured(s, step).value)
  {
    var r, h := Apply(s, step), Captured(s, step).value;
    CaptureExact(s.net, s.sockets[step.i], step.spare);
    AcceptKeeps(s, step.i, step.spare);
    forall k | 0 <= k < |r.sockets| ensures h !in r.sockets[k].backlog {
      CapturedOnce(s, step.i, step.spare, k);
      HoldsPool(r.sockets[k], h);
    }
    forall k | 0 <= k < |r.calls| ensures OutOfPool(r.calls[k], h) {
      CapturedOnce(s, step.i, step.spare, step.i);
      if k < |s.calls| {
        TallyAtLeast(s.calls, k, CallHolds, h);
        assert CallPoolOk(s.calls[k]);
        if s.calls[k].Taken? || s.calls[k].Recycled? { HoldsPool(s.calls[k].sock, h); }
      }
    }
  }

  // ---------- Over runs ----------

  /** Step i captures `h`, which then stays in the set until state j. */
  ghost predicate CapturedAt(run: seq<State>, steps: seq<Step>, h: int, i: nat, j: nat)
    requires IsRun(run, steps) && j < |run|
  {
    i < j && Captured(run[i], steps[i]) == Some(h) && forall m :: i < m <= j ==> h in run[m].net
  }

  ghost predicate CapturedBefore(run: seq<State>, steps: seq<Step>, h: int, j: nat)
    requires IsRun(run, steps) && j < |run|
  {
    exists i: nat :: CapturedAt(run, steps, h, i, j)
  }

  lemma {:induction false} StaysOut(run: seq<State>, steps: seq<Step>, h: int, i: nat, j: nat)
    requires IsRun(run, steps) && j < |run| && CapturedAt(run, steps, h, i, j)
    ensures InNoPool(run[j], h)
    decreases j
  {
    assert StepAt(run[j - 1], steps[j - 1], run[j - 1 + 1]);
    if i == j - 1 {
      OwnedAlways(run, steps, i);
      CapturedInNoPool(run[i], steps[i]);
    } else {
      StaysOut(run, steps, h, i, j - 1);
      PoolsStay(run[j - 1], steps[j - 1], h);
    }
  }

  /** An accept captures a handle that was captured before and is still in the set, if and only if that handle
      is the primary of the socket it acts on and holds a connection. */
  lemma CapturedAgainIff(run: seq<State>, steps: seq<Step>, j: nat)
    requires IsRun(run, steps) && j < |steps| && steps[j].AcceptStep? && Enabled(run[j], steps[j])
    ensures var got, first := Captured(run[j], steps[j]), run[j].sockets[steps[j].i].handle;
            (got.Some? && CapturedBefore(run, steps, got.value, j))
            <==> CapturedBefore(run, steps, first, j) && Connected(run[j].net, first)
  {
    var got, sock := Captured(run[j], steps[j]), run[j].sockets[steps[j].i];
    if got.Some? && CapturedBefore(run, steps, got.value, j) {
      var i: nat :| CapturedAt(run, steps, got.value, i, j);
      StaysOut(run, steps, got.value, i, j);
      assert got.value !in sock.backlog;
    }
  }

  /** No accept of the run acts on a socket whose primary handle is a live connection accepted before. */
  ghost predicate OnListeners(run: seq<State>, steps: seq<Step>)
    requires IsRun(run, steps)
  {
    forall j: nat :: j < |steps| && steps[j].AcceptStep? && Enabled(run[j], steps[j]) ==>
      var first := run[j].sockets[steps[j].i].handle;
      !(CapturedBefore(run, steps, first, j) && Connected(run[j].net, first))
  }

  /** Then no handle is captured twice unless it left the set in between. */
  lemma NeverCapturedTwice(run: seq<State>, steps: seq<Step>, i: nat, j: nat, h: int)
    requires IsRun(run, steps) && OnListeners(run, steps) && i < j < |steps|
    requires Captured(run[i], steps[i]) == Captured(run[j], steps[j]) == Some(h)
    ensures exists m :: i < m <= j && h !in run[m].net
  {
    if forall m :: i < m <= j ==> h in run[m].net {
      assert StepAt(run[j], steps[j], run[j + 1]);
      assert CapturedAt(run, steps, h, i, j);
      CapturedAgainIff(run, steps, j);
      assert false;
    }
  }

  // ---------- A connection captured twice ----------

  function Range(base: int, n: nat): (r: seq<int>)
    ensures |r| == n
    decreases n
  {
    if n == 0 then [] else [base] + Range(base + 1, n - 1)
  }

  lemma {:induction false} RangeFresh(net: map<int, Entry>, base: int, n: nat)
    requires forall h :: h in net ==> h < base
    ensures AllFresh(net, Range(base, n))
    ensures forall h :: h in Install(net, Range(base, n)) ==> h < base + n
    ensures forall h :: h in net ==> h in Install(net, Range(base, n))
    decreases n
  {
    if n > 0 {
      var r := Range(base, n);
      assert r[0] == base && r[1..] == Range(base + 1, n - 1);
      RangeFresh(net[base := Tcp(Listen)], base + 1, n - 1);
    }
  }

  const SPARES := Range(1, LISTENER_POOL_SIZE - 1)
  const MORE := Range(LISTENER_POOL_SIZE + 1, LISTENER_POOL_SIZE - 1)

  /** The set with a listener's pool, handle 0 its primary, in which a connection has come in. */
  function PoolNet(): map<int, Entry> { Install(map[0 := Tcp(Closed)], SPARES)[0 := Tcp(Established)] }

  lemma PoolNetKeys()
    ensures AllFresh(map[0 := Tcp(Closed)], SPARES) && 0 in Install(map[0 := Tcp(Closed)], SPARES)
    ensures forall h :: h in PoolNet() ==> h < LISTENER_POOL_SIZE
  {
    RangeFresh(map[0 := Tcp(Closed)], 1, LISTENER_POOL_SIZE - 1);
  }

  lemma Extend(run: seq<State>, steps: seq<Step>, step: Step)
    requires IsRun(run, steps) && Enabled(run[|steps|], step) && Safe(run[|steps|], step)
    ensures IsRun(run + [Apply(run[|steps|], step)], steps + [step])
  {
    var run', steps' := run + [Apply(run[|steps|], step)], steps + [step];
    forall i | 0 <= i < |steps'| ensures StepAt(run'[i], steps'[i], run'[i + 1]) {
      if i < |steps| { assert StepAt(run[i], steps[i], run[i + 1]); }
    }
  }

  /** A listener on descriptor 500 whose primary holds a connection. */
  function Listening(): State {
    State(PoolNet(), [Sock(500, TcpListener, 0, SPARES)], [], 501, [], [])
  }

  /** socket and listen lead there. */
  lemma ReachListening() returns (run: seq<State>, steps: seq<Step>)
    ensures IsRun(run, steps) && run[|steps|] == Listening()
  {
    var net := map[0 := Tcp(Closed)];
    var s0 := State(map[], [], [], FIRST_FD, [], []);
    var s1 := State(net, [], [], 500, [], [Got(0, TcpStream)]);
    var s2 := State(net, [], [], 501, [], [GotFd(0, TcpStream, 500)]);
    var s3 := State(net, [Sock(500, TcpStream, 0, [])], [], 501, [], []);
    var s4 := State(Install(net, SPARES), [Sock(500, TcpListener, 0, SPARES)], [], 501, [], []);
    PoolNetKeys();
    run, steps := [s0], [];
    assert Apply(s0, SocketNet(TcpStream, 0)) == s1;
    Extend(run, steps, SocketNet(TcpStream, 0));
    run, steps := run + [s1], steps + [SocketNet(TcpStream, 0)];
    assert Apply(s1, TakeFd(0)) == s2;
    Extend(run, steps, TakeFd(0));
    run, steps := run + [s2], steps + [TakeFd(0)];
    assert Apply(s2, Push(0)) == s3;
    Extend(run, steps, Push(0));
    run, steps := run + [s3], steps + [Push(0)];
    assert Apply(s3, ListenStep(0, true, SPARES)) == s4;
    Extend(run, steps, ListenStep(0, true, SPARES));
    run, steps := run + [s4], steps + [ListenStep(0, true, SPARES)];
    ConnectionComes(run, steps);
    run, steps := run + [Listening()], steps + [NetChange(0, Established)];
  }

  lemma ConnectionComes(run: seq<State>, steps: seq<Step>)
    requires IsRun(run, steps)
    requires run[|steps|] == Listening().(net := Install(map[0 := Tcp(Closed)], SPARES))
    ensures IsRun(run + [Listening()], steps + [NetChange(0, Established)])
  {
    PoolNetKeys();
    assert Enabled(run[|steps|], NetChange(0, Established)) by {
      TcpOnly(map[0 := Tcp(Closed)], SPARES, 0);
    }
    Extend(run, steps, NetChange(0, Established));
  }

  lemma {:induction false} TcpOnly(net: map<int, Entry>, hs: seq<int>, h: int)
    requires h in net && net[h].Tcp?
    ensures h in Install(net, hs) && Install(net, hs)[h].Tcp?
    decreases |hs|
  {
    if hs != [] {
      TcpOnly(net[hs[0] := Tcp(Listen)], hs[1..], h);
    }
  }

  /** Accept on the listener, then a refused listen and an accept on the accepted stream. */
  const AGAIN := [AcceptStep(0, 64), TakeFd(0), Push(0), ListenStep(1, false, MORE), AcceptStep(1, 65)]

  function AfterAccept(calls: seq<InFlight>, nextFd: int, second: seq<Sock>): State {
    State(PoolNet()[64 := Tcp(Listen)], [Sock(500, TcpListener, 64, SPARES)] + second, [], nextFd, [], calls)
  }

  /** States of that run, with the connection in handle 0 up all the time. */
  function Again(): seq<State> {
    [AfterAccept([Got(0, TcpStream)], 501, []),
     AfterAccept([GotFd(0, TcpStream, 501)], 502, []),
     AfterAccept([], 502, [Sock(501, TcpStream, 0, [])]),
     AfterAccept([], 502, [Sock(501, TcpListener, 0, [])])]
  }

  lemma AgainSteps()
    ensures StepAt(Listening(), AGAIN[0], Again()[0])
    ensures StepAt(Again()[0], AGAIN[1], Again()[1]) && StepAt(Again()[1], AGAIN[2], Again()[2])
  {
    PoolNetKeys();
  }

  lemma RefusedListen()
    ensures StepAt(Again()[2], AGAIN[3], Again()[3]) && Enabled(Again()[3], AGAIN[4])
    ensures Captured(Again()[3], AGAIN[4]) == Some(0)
  {
    PoolNetKeys();
    RangeFresh(PoolNet()[64 := Tcp(Listen)], LISTENER_POOL_SIZE + 1, LISTENER_POOL_SIZE - 1);
  }

  lemma Append(run: seq<State>, steps: seq<Step>, states: seq<State>, more: seq<Step>)
    requires IsRun(run, steps) && |states| == |more| > 0 && StepAt(run[|steps|], more[0], states[0])
    requires forall k :: 0 < k < |more| ==> StepAt(states[k - 1], more[k], states[k])
    ensures IsRun(run + states, steps + more)
  {
    var run', steps', n := run + states, steps + more, |steps|;
    forall i | 0 <= i < |steps'| ensures StepAt(run'[i], steps'[i], run'[i + 1]) {
      if i < n {
        assert StepAt(run[i], steps[i], run[i + 1]);
      } else if i > n {
        assert StepAt(states[i - n - 1], more[i - n], states[i - n]);
      }
    }
  }

  ghost predicate TwiceUp(run: seq<State>, steps: seq<Step>, i: nat, j: nat, h: int) {
    && IsRun(run, steps) && i < j < |steps|
    && Captured(run[i], steps[i]) == Captured(run[j], steps[j]) == Some(h)
    && forall m :: i < m <= j ==> Connected(run[m].net, h)
  }

  lemma TwiceAt(run: seq<State>, steps: seq<Step>, states: seq<State>)
    requires IsRun(run, steps) && run[|steps|] == Listening() && |states| == 5 && states[..4] == Again()
    requires IsRun(run + states, steps + AGAIN) && Captured(Again()[3], AGAIN[4]) == Some(0)
    ensures TwiceUp(run + states, steps + AGAIN, |steps|, |steps| + 4, 0)
  {
    var run', n := run + states, |steps|;
    forall m | n < m <= n + 4 ensures run'[m] == Again()[m - n - 1] {
      assert run'[m] == states[..4][m - n - 1];
    }
  }

  /** From the empty table: the connection in handle 0 is captured, and while it is still up captured again. */
  lemma CapturedTwice()
    ensures exists run: seq<State>, steps: seq<Step>, i: nat, j: nat :: TwiceUp(run, steps, i, j, 0)
  {
    var run, steps := ReachListening();
    AgainSteps();
    RefusedListen();
    var states := Again() + [Apply(Again()[3], AGAIN[4])];
    assert StepAt(states[3], AGAIN[4], states[4]);
    Append(run, steps, states, AGAIN);
    TwiceAt(run, steps, states);
  }
}
