/** The critical sections of src/net/socket.rs in place, with their loops, against SocketModel. */
module SocketKernel {
  import opened Wrappers
  import opened Lists
  import opened SocketModel
  import opened SocketTheorems

  class SocketTable {
    var net: map<int, Entry>
    var sockets: seq<Sock>
    var recycled: seq<int>
    var nextFd: int
    var closing: seq<int>
    ghost var calls: seq<InFlight>

    ghost function Abs(): State
      reads this
    {
      State(net, sockets, recycled, nextFd, closing, calls)
    }

    constructor ()
      ensures Abs() == State(map[], [], [], FIRST_FD, [], [])
    {
      net, sockets, recycled, nextFd, closing, calls := map[], [], [], FIRST_FD, [], [];
    }

    method Alloc() returns (fd: int)
      modifies this`recycled, this`nextFd
      ensures (Abs(), fd) == AllocFd(old(Abs()))
    {
      if |recycled| > 0 {
        fd := recycled[|recycled| - 1];
        recycled := recycled[..|recycled| - 1];
        return;
      }
      fd := nextFd;
      nextFd := nextFd + 1;
    }

    /** The position of an open descriptor, if any. */
    method Find(fd: int) returns (i: nat)
      ensures i == FindFd(sockets, fd, 0)
    {
      i := 0;
      while i < |sockets| && sockets[i].fd != fd
        invariant i <= |sockets| && FindFd(sockets, fd, 0) == FindFd(sockets, fd, i)
      {
        i := i + 1;
      }
    }

    /** listen: `bound` is smoltcp's answer, `hs` the handles the set gives out. */
    method ListenSection(i: nat, bound: bool, hs: seq<int>) returns (r: int)
      requires Enabled(Abs(), ListenStep(i, bound, hs))
      modifies this`sockets, this`net
      ensures Abs() == Apply(old(Abs()), ListenStep(i, bound, hs)) && (r == 0 <==> bound)
    {
      sockets := sockets[i := sockets[i].(kind := TcpListener)];
      if !bound {
        return -98;
      }
      var spares: seq<int> := [];
      for k := 0 to LISTENER_POOL_SIZE - 1
        invariant sockets == old(sockets)[i := old(sockets)[i].(kind := TcpListener)] && spares == hs[..k]
        invariant Install(net, hs[k..]) == Install(old(net), hs)
      {
        assert hs[k..][0] == hs[k] && hs[k..][1..] == hs[k + 1..];
        net := net[hs[k] := Tcp(Listen)];
        spares := spares + [hs[k]];
      }
      assert hs[LISTENER_POOL_SIZE - 1..] == [] && spares == hs;
      sockets := sockets[i := sockets[i].(backlog := spares)];
      return 0;
    }

    /** accept: one scan of the pool under both locks. */
    method AcceptSection(i: nat, spare: int) returns (got: Option<int>)
      requires Enabled(Abs(), AcceptStep(i, spare))
      modifies this`sockets, this`net, this`calls
      ensures Abs() == Apply(old(Abs()), AcceptStep(i, spare))
      ensures got == Capture(old(net), old(sockets)[i], spare).1
    {
      var sock := sockets[i];
      if Ready(net, sock.handle) {
        got := Some(sock.handle);
        sockets := sockets[i := sock.(handle := spare)];
        net := net[spare := Tcp(Listen)];
        calls := calls + [Got(sock.handle, TcpStream)];
        return;
      }
      for k := 0 to |sock.backlog|
        invariant ReadySlot(net, sock.backlog, 0) == ReadySlot(net, sock.backlog, k)
        invariant Abs() == old(Abs())
      {
        var h := sock.backlog[k];
        if Ready(net, h) {
          got := Some(h);
          sockets := sockets[i := sock.(backlog := sock.backlog[k := spare])];
          net := net[spare := Tcp(Listen)];
          calls := calls + [Got(h, TcpStream)];
          return;
        }
      }
      got := None;
    }

    /** close, last section. Every handle removed is present: none of the removals can fail. */
    method DisposeSection(ghost i: nat, sock: Sock)
      requires Inv(Abs()) && i < |calls| && calls[i] == Recycled(sock)
      modifies this`net, this`closing, this`calls
      ensures Abs() == Apply(old(Abs()), CloseDispose(i)) && Inv(Abs())
    {
      CloseDisposeKeeps(Abs(), i);
      ghost var s := Abs();
      match sock.kind {
      case TcpStream =>
        closing := closing + [sock.handle];
      case TcpListener =>
        net := net - {sock.handle};
        for k := 0 to |sock.backlog|
          invariant Abs() == s.(net := net)
          invariant net == RemoveAll(s.net, [sock.handle] + sock.backlog[..k])
        {
          PoolPresent(s, i, k);
          assert sock.backlog[k] in net;
          RemoveStep(s.net, [sock.handle] + sock.backlog[..k], sock.backlog[k]);
          assert [sock.handle] + sock.backlog[..k] + [sock.backlog[k]] == [sock.handle] + sock.backlog[..k + 1];
          net := net - {sock.backlog[k]};
        }
        assert sock.backlog[..|sock.backlog|] == sock.backlog;
      case UdpDgram =>
        net := net - {sock.handle};
      }
      calls := RemoveAt(calls, i);
    }

    method GcClosedHandles()
      modifies this`net, this`closing
      ensures Abs() == Apply(old(Abs()), GcStep)
    {
      var i := 0;
      while i < |closing|
        invariant i <= |closing| && Gc(net, closing, i) == Gc(old(net), old(closing), 0)
        decreases |closing| - i
      {
        if Finished(net, closing[i]) {
          net := net - {closing[i]};
          closing := SwapRemove(closing, i);
        } else {
          i := i + 1;
        }
      }
    }
  }

  lemma {:induction false} RemoveStep(net: map<int, Entry>, hs: seq<int>, h: int)
    ensures RemoveAll(net, hs + [h]) == RemoveAll(net, hs) - {h}
  {
    if hs == [] {
      assert (hs + [h])[1..] == [];
    } else {
      RemoveStep(net - {hs[0]}, hs[1..], h);
      assert (hs + [h])[1..] == hs[1..] + [h];
    }
  }
}
