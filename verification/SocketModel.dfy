/**
 Who owns which TCP handle in src/net/socket.rs: the socket table, listener pools, deferred closes,
 recycled descriptor numbers and the calls in progress. One step is one critical section; between them
 other calls and the network may run. smoltcp sockets are abstracted to a connection state.
 */
module SocketModel {
  import opened Wrappers
  import opened Lists
  import opened Tallies

  const LISTENER_POOL_SIZE := 64
  const FIRST_FD := 500

  datatype Kind = TcpStream | TcpListener | UdpDgram

  datatype TcpState = Closed | TimeWait | Listen | Established | CloseWait | OtherState

  datatype Entry = Tcp(st: TcpState) | Udp

  datatype Sock = Sock(fd: int, kind: Kind, handle: int, backlog: seq<int>)

  /** A call between two of its critical sections, and what it holds meanwhile. */
  datatype InFlight =
    | Got(handle: int, kind: Kind)               // a handle, no descriptor number yet
    | GotFd(handle: int, kind: Kind, fd: int)    // both, not in the table yet
    | Taken(sock: Sock)                          // close: out of the table
    | Recycled(sock: Sock)                       // close: descriptor number given back

  datatype State = State(
    net: map<int, Entry>,
    sockets: seq<Sock>,
    recycled: seq<int>,
    nextFd: int,
    closing: seq<int>,
    calls: seq<InFlight>)

  // ---------- Ownership ----------

  /** How often a socket holds a handle: a listener owns its whole pool, a stream one handle. */
  function SockHolds(s: Sock, h: int): nat {
    Is(s.handle, h) + if s.kind == TcpListener then Count(s.backlog, h) else 0
  }

  function CallHolds(c: InFlight, h: int): nat {
    match c
    case Got(handle, _) => Is(handle, h)
    case GotFd(handle, _, _) => Is(handle, h)
    case Taken(sock) => SockHolds(sock, h)
    case Recycled(sock) => SockHolds(sock, h)
  }

  function SockFd(s: Sock, fd: int): nat { Is(s.fd, fd) }

  function CallFd(c: InFlight, fd: int): nat {
    match c
    case GotFd(_, _, n) => Is(n, fd)
    case Taken(sock) => Is(sock.fd, fd)
    case _ => 0
  }

  function Owners(s: State, h: int): nat {
    Tally(s.sockets, SockHolds, h) + Tally(s.calls, CallHolds, h) + Count(s.closing, h)
  }

  function Places(s: State, fd: int): nat {
    Tally(s.sockets, SockFd, fd) + Tally(s.calls, CallFd, fd) + Count(s.recycled, fd)
  }

  /** Every handle in the set has exactly one owner, and no handle outside the set has any. */
  ghost predicate HandlesOwned(s: State) {
    forall h :: Owners(s, h) == if h in s.net then 1 else 0
  }

  /** Every descriptor number handed out so far is in exactly one place: open, in a call, or recycled. */
  ghost predicate FdsOnce(s: State) {
    FIRST_FD <= s.nextFd && forall fd :: Places(s, fd) == if FIRST_FD <= fd < s.nextFd then 1 else 0
  }

  /** Only listeners have spare handles, and then exactly 63, which makes a pool of 64 with the primary. */
  predicate PoolOk(s: Sock) {
    s.backlog == [] || (s.kind == TcpListener && |s.backlog| == LISTENER_POOL_SIZE - 1)
  }

  predicate CallPoolOk(c: InFlight) { c.Taken? || c.Recycled? ==> PoolOk(c.sock) }

  ghost predicate Pools(s: State) {
    && (forall i :: 0 <= i < |s.sockets| ==> PoolOk(s.sockets[i]))
    && (forall i :: 0 <= i < |s.calls| ==> CallPoolOk(s.calls[i]))
  }

  ghost predicate Inv(s: State) { HandlesOwned(s) && FdsOnce(s) && Pools(s) }

  // ---------- Critical sections ----------

  function FindFd(sockets: seq<Sock>, fd: int, k: nat): (i: nat)
    requires k <= |sockets|
    ensures k <= i <= |sockets| && (i < |sockets| ==> sockets[i].fd == fd)
    decreases |sockets| - k
  {
    if k == |sockets| || sockets[k].fd == fd then k else FindFd(sockets, fd, k + 1)
  }

  /** The most recently recycled number, or a new one. */
  function AllocFd(s: State): (State, int) {
    if s.recycled != [] then (s.(recycled := s.recycled[..|s.recycled| - 1]), s.recycled[|s.recycled| - 1])
    else (s.(nextFd := s.nextFd + 1), s.nextFd)
  }

  function Install(net: map<int, Entry>, hs: seq<int>): map<int, Entry>
    decreases |hs|
  {
    if hs == [] then net else Install(net[hs[0] := Tcp(Listen)], hs[1..])
  }

  predicate AllFresh(net: map<int, Entry>, hs: seq<int>)
    decreases |hs|
  {
    hs == [] || (hs[0] !in net && AllFresh(net[hs[0] := Tcp(Listen)], hs[1..]))
  }

  /** listen: a refused bind still turns the socket into a listener. */
  function ListenOn(s: State, i: nat, ok: bool, hs: seq<int>): State
    requires i < |s.sockets|
  {
    var sock := s.sockets[i].(kind := TcpListener);
    if !ok then s.(sockets := s.sockets[i := sock])
    else s.(sockets := s.sockets[i := sock.(backlog := hs)], net := Install(s.net, hs))
  }

  function ConnectOn(s: State, i: nat): State
    requires i < |s.sockets|
  {
    s.(sockets := s.sockets[i := s.sockets[i].(kind := TcpStream)])
  }

  predicate Ready(net: map<int, Entry>, h: int) {
    h in net && net[h].Tcp? && net[h].st in {Established, CloseWait}
  }

  /** The first pool slot from `k` on that holds a connection. */
  function ReadySlot(net: map<int, Entry>, backlog: seq<int>, k: nat): (i: nat)
    requires k <= |backlog|
    ensures k <= i <= |backlog| && (i < |backlog| ==> Ready(net, backlog[i]))
    decreases |backlog| - k
  {
    if k == |backlog| || Ready(net, backlog[k]) then k else ReadySlot(net, backlog, k + 1)
  }

  /** accept: captures the primary's connection, else the first spare's, and puts a fresh listener there. */
  function Capture(net: map<int, Entry>, sock: Sock, spare: int): (r: (Sock, Option<int>)) {
    if Ready(net, sock.handle) then (sock.(handle := spare), Some(sock.handle))
    else
      var j := ReadySlot(net, sock.backlog, 0);
      if j == |sock.backlog| then (sock, None)
      else (sock.(backlog := sock.backlog[j := spare]), Some(sock.backlog[j]))
  }

  function AcceptOn(s: State, i: nat, spare: int): State
    requires i < |s.sockets|
  {
    var (sock, got) := Capture(s.net, s.sockets[i], spare);
    if got.None? then s
    else s.(sockets := s.sockets[i := sock], net := s.net[spare := Tcp(Listen)],
            calls := s.calls + [Got(got.value, TcpStream)])
  }

  function RemoveAll(net: map<int, Entry>, hs: seq<int>): map<int, Entry> {
    if hs == [] then net else RemoveAll(net - {hs[0]}, hs[1..])
  }

  /** close, last section: streams wait in the closing list, everything else leaves the set. */
  function Dispose(s: State, sock: Sock): State {
    match sock.kind
    case TcpStream => s.(closing := s.closing + [sock.handle])
    case TcpListener => s.(net := RemoveAll(s.net, [sock.handle] + sock.backlog))
    case UdpDgram => s.(net := s.net - {sock.handle})
  }

  predicate Finished(net: map<int, Entry>, h: int) {
    h in net && net[h].Tcp? && net[h].st in {Closed, TimeWait}
  }

  /** One pass over the closing list from `i` on. */
  function Gc(net: map<int, Entry>, closing: seq<int>, i: nat): (r: (map<int, Entry>, seq<int>))
    requires i <= |closing|
    decreases |closing| - i
  {
    if i == |closing| then (net, closing)
    else if Finished(net, closing[i]) then Gc(net - {closing[i]}, SwapRemove(closing, i), i)
    else Gc(net, closing, i + 1)
  }

  // ---------- Steps ----------

  datatype Step =
    | SocketNet(kind: Kind, handle: int)
    | TakeFd(i: nat)
    | Push(i: nat)
    | ListenStep(i: nat, ok: bool, hs: seq<int>)
    | ConnectStep(i: nat)
    | AcceptStep(i: nat, spare: int)
    | CloseRemove(i: nat)
    | CloseRecycle(i: nat)
    | CloseDispose(i: nat)
    | GcStep
    | NetChange(handle: int, st: TcpState)

  predicate Enabled(s: State, step: Step) {
    match step
    case SocketNet(kind, h) => h !in s.net && kind != TcpListener
    case TakeFd(i) => i < |s.calls| && s.calls[i].Got?
    case Push(i) => i < |s.calls| && s.calls[i].GotFd?
    case ListenStep(i, ok, hs) =>
      i < |s.sockets| && s.sockets[i].kind != UdpDgram && |hs| == LISTENER_POOL_SIZE - 1 && AllFresh(s.net, hs)
    case ConnectStep(i) => i < |s.sockets| && s.sockets[i].kind != UdpDgram
    case AcceptStep(i, spare) => i < |s.sockets| && s.sockets[i].kind != UdpDgram && spare !in s.net
    case CloseRemove(i) => i < |s.sockets|
    case CloseRecycle(i) => i < |s.calls| && s.calls[i].Taken?
    case CloseDispose(i) => i < |s.calls| && s.calls[i].Recycled?
    case GcStep => true
    case NetChange(h, st) => h in s.net && s.net[h].Tcp?
  }

  function Apply(s: State, step: Step): State
    requires Enabled(s, step)
  {
    match step
    case SocketNet(kind, h) =>
      s.(net := s.net[h := if kind == UdpDgram then Udp else Tcp(Closed)], calls := s.calls + [Got(h, kind)])
    case TakeFd(i) =>
      var (s', fd) := AllocFd(s);
      s'.(calls := s.calls[i := GotFd(s.calls[i].handle, s.calls[i].kind, fd)])
    case Push(i) =>
      var c := s.calls[i];
      s.(sockets := s.sockets + [Sock(c.fd, c.kind, c.handle, [])], calls := RemoveAt(s.calls, i))
    case ListenStep(i, ok, hs) => ListenOn(s, i, ok, hs)
    case ConnectStep(i) => ConnectOn(s, i)
    case AcceptStep(i, spare) => AcceptOn(s, i, spare)
    case CloseRemove(i) => s.(sockets := RemoveAt(s.sockets, i), calls := s.calls + [Taken(s.sockets[i])])
    case CloseRecycle(i) =>
      s.(recycled := s.recycled + [s.calls[i].sock.fd], calls := s.calls[i := Recycled(s.calls[i].sock)])
    case CloseDispose(i) => Dispose(s.(calls := RemoveAt(s.calls, i)), s.calls[i].sock)
    case GcStep =>
      var (net, closing) := Gc(s.net, s.closing, 0);
      s.(net := net, closing := closing)
    case NetChange(h, st) => s.(net := s.net[h := Tcp(st)])
  }
}
