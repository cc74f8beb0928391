/**
 The partial-write paths writev and sendfile (src/syscall.rs) over a socket that accepts any prefix of
 what it is offered, or refuses. The socket's answers and the reads that still succeed are an arbitrary
 script, so every pattern of short accepts, EAGAINs and errors is covered.
 */
module SendPath {
  import opened Wrappers

  type Bytes = seq<bv8>

  const EAGAIN := -11
  const EBADF := -9
  const EINVAL := -22
  const CHUNK := 4096

  /** What went out so far, and the answers the next send attempts get; none left means EAGAIN. */
  datatype Out = Out(sent: Bytes, script: seq<int>)

  function Min(a: nat, b: nat): nat { if a < b then a else b }

  /** One attempt: a negative answer is an error, any other accepts that many bytes at most. */
  function Send(o: Out, buf: Bytes): (Out, int) {
    if o.script == [] then (o, EAGAIN)
    else
      var rest := o.script[1..];
      if o.script[0] < 0 then (o.(script := rest), o.script[0])
      else
        var n := Min(o.script[0], |buf|);
        (Out(o.sent + buf[..n], rest), n)
  }

  // ---------- writev ----------

  function Flatten(iov: seq<Bytes>): Bytes {
    if iov == [] then [] else iov[0] + Flatten(iov[1..])
  }

  /** What a loop moved before it stopped, and the error that stopped it, if one did. */
  datatype Moved = Moved(o: Out, n: nat, error: int)

  /** An error is reported only when nothing moved before it. */
  function Report(m: Moved): int { if m.error < 0 && m.n == 0 then m.error else m.n }

  /** The loop of sys_writev from entry `iov[0]` on. */
  function WritevLoop(o: Out, iov: seq<Bytes>): Moved
    decreases |iov|
  {
    if iov == [] then Moved(o, 0, 0)
    else if iov[0] == [] then WritevLoop(o, iov[1..])
    else
      var (o', written) := Send(o, iov[0]);
      if written < 0 then Moved(o', 0, written)
      else if written < |iov[0]| then Moved(o', written, 0)
      else
        var m := WritevLoop(o', iov[1..]);
        m.(n := written + m.n)
  }

  function Writev(o: Out, iov: seq<Bytes>): (Out, int) {
    var m := WritevLoop(o, iov);
    (m.o, Report(m))
  }

  lemma PrefixJoin(sent: Bytes, first: Bytes, rest: Bytes, n: nat)
    requires n <= |rest|
    ensures (sent + first) + rest[..n] == sent + (first + rest)[..|first| + n]
  {
    assert (first + rest)[..|first| + n] == first + rest[..n];
  }

  lemma {:induction false} WritevLoopExact(o: Out, iov: seq<Bytes>)
    ensures var m := WritevLoop(o, iov);
            m.n <= |Flatten(iov)| && m.o.sent == o.sent + Flatten(iov)[..m.n]
    decreases |iov|
  {
    if iov != [] {
      var first, rest := iov[0], Flatten(iov[1..]);
      WritevLoopExact(o, iov[1..]);
      var (o', written) := Send(o, first);
      if first == [] {
        assert Flatten(iov) == rest;
      } else if written == |first| {
        WritevLoopExact(o', iov[1..]);
        assert first[..written] == first;
        PrefixJoin(o.sent, first, rest, WritevLoop(o', iov[1..]).n);
      } else if written >= 0 {
        assert Flatten(iov)[..written] == first[..written];
      }
    }
  }

  /** A writev sends exactly the reported prefix of the concatenation; an error means that nothing went out. */
  lemma WritevExact(o: Out, iov: seq<Bytes>)
    ensures var (o', r) := Writev(o, iov);
            if r < 0 then o'.sent == o.sent
            else r <= |Flatten(iov)| && o'.sent == o.sent + Flatten(iov)[..r]
  {
    WritevLoopExact(o, iov);
  }

  /** What the socket answers to the next attempt. */
  function FirstAnswer(o: Out): int { if o.script == [] then EAGAIN else o.script[0] }

  /** An error is returned exactly when there is something to send and the very first attempt is refused: its error. */
  lemma {:induction false} WritevFailsIff(o: Out, iov: seq<Bytes>)
    ensures var r := Writev(o, iov).1;
            && (r < 0 <==> Flatten(iov) != [] && FirstAnswer(o) < 0)
            && (r < 0 ==> r == FirstAnswer(o))
    decreases |iov|
  {
    if iov != [] {
      if iov[0] == [] {
        WritevFailsIff(o, iov[1..]);
        assert Flatten(iov) == Flatten(iov[1..]);
      } else {
        assert Flatten(iov)[0] == iov[0][0];
      }
    }
  }

  /** The next `k` attempts accept `n` bytes or more. */
  ghost predicate Accepts(o: Out, k: nat, n: nat) {
    k <= |o.script| && forall i :: 0 <= i < k ==> o.script[i] >= n
  }

  lemma SendAll(o: Out, buf: Bytes, k: nat, n: nat)
    requires Accepts(o, k, n) && k > 0 && |buf| <= n
    ensures var (o', r) := Send(o, buf); r == |buf| && o'.sent == o.sent + buf && Accepts(o', k - 1, n)
  {
    assert buf[..|buf|] == buf;
  }

  /** A socket that accepts everything gets everything. */
  lemma {:induction false} WritevAll(o: Out, iov: seq<Bytes>, n: nat)
    requires Accepts(o, |iov|, n) && forall i :: 0 <= i < |iov| ==> |iov[i]| <= n
    ensures var m := WritevLoop(o, iov); m.n == |Flatten(iov)| && m.error == 0 && m.o.sent == o.sent + Flatten(iov)
    ensures Writev(o, iov).1 == |Flatten(iov)|
    decreases |iov|
  {
    if iov != [] {
      if iov[0] == [] {
        WritevAll(o, iov[1..], n);
        assert Flatten(iov) == Flatten(iov[1..]);
      } else {
        SendAll(o, iov[0], |iov|, n);
        WritevAll(Send(o, iov[0]).0, iov[1..], n);
      }
    }
  }

  function Progress(r: int): nat { if r < 0 then 0 else r }

  /** A caller that resumes each writev at the count the previous one returned. */
  ghost predicate ResumedWritev(data: Bytes, outs: seq<Out>, iovs: seq<seq<Bytes>>, done: seq<nat>) {
    && |outs| == |done| == |iovs| + 1 && done[0] == 0
    && forall k :: 0 <= k < |iovs| ==>
         && done[k] <= |data| && Flatten(iovs[k]) == data[done[k]..]
         && outs[k + 1].sent == Writev(outs[k], iovs[k]).0.sent
         && done[k + 1] == done[k] + Progress(Writev(outs[k], iovs[k]).1)
  }

  /** However the socket answers, the calls together send the data once, in order, without a gap. */
  lemma {:induction false} WritevResumes(data: Bytes, outs: seq<Out>, iovs: seq<seq<Bytes>>, done: seq<nat>, k: nat)
    requires ResumedWritev(data, outs, iovs, done) && k < |outs|
    ensures done[k] <= |data| && outs[k].sent == outs[0].sent + data[..done[k]]
  {
    if k > 0 {
      var j := k - 1;
      WritevResumes(data, outs, iovs, done, j);
      assert outs[j + 1].sent == Writev(outs[j], iovs[j]).0.sent;
      WritevProgress(outs[j], iovs[j]);
      ResumeJoin(outs[0].sent, data, done[j], Progress(Writev(outs[j], iovs[j]).1));
    }
  }

  lemma WritevProgress(o: Out, iov: seq<Bytes>)
    ensures var n := Progress(Writev(o, iov).1);
            n <= |Flatten(iov)| && Writev(o, iov).0.sent == o.sent + Flatten(iov)[..n]
  {
    WritevExact(o, iov);
  }

  lemma ResumeJoin(sent: Bytes, data: Bytes, d: nat, n: nat)
    requires d + n <= |data|
    ensures sent + data[..d] + data[d..][..n] == sent + data[..d + n]
  {
    assert data[..d] + data[d..][..n] == data[..d + n];
  }

  // ---------- sendfile ----------

  /** An open file and the number of reads it survives before another thread closes it. */
  datatype File = File(data: Bytes, alive: nat)

  /** pread: bytes from `off`, or an error once the file is gone. */
  function Pread(f: File, count: nat, off: nat): (File, Result<Bytes, int>) {
    if f.alive == 0 then (f, Err(EBADF))
    else
      var g := f.(alive := f.alive - 1);
      if off >= |f.data| then (g, Ok([])) else (g, Ok(f.data[off..off + Min(count, |f.data| - off)]))
  }

  /** Exactly bytes `off` up to `off + n` of the file went out. */
  ghost predicate SentSlice(o: Out, o': Out, data: Bytes, off: nat, n: nat) {
    if n == 0 then o'.sent == o.sent else off + n <= |data| && o'.sent == o.sent + data[off..off + n]
  }

  /** How one round of the loop ends. */
  datatype Round =
    | Failed(o: Out, error: int)
    | Eof
    | Sent(o: Out, f: File, n: nat, full: bool)

  function OneRound(o: Out, f: File, want: nat, off: nat): Round {
    var (f', chunk) := Pread(f, want, off);
    if chunk.Err? then Failed(o, chunk.error)
    else if chunk.value == [] then Eof
    else
      var (o', nsent) := Send(o, chunk.value);
      if nsent < 0 then Failed(o', nsent) else Sent(o', f', nsent, nsent == |chunk.value|)
  }

  lemma SubSlice(data: Bytes, a: nat, b: nat, k: nat)
    requires a + k <= b <= |data|
    ensures data[a..b][..k] == data[a..a + k]
  {}

  /** A round sends a slice that starts at the offset, or nothing. */
  lemma RoundExact(o: Out, f: File, want: nat, off: nat)
    ensures var r := OneRound(o, f, want, off);
            && (r.Failed? ==> r.o.sent == o.sent && r.error < 0)
            && (r.Sent? ==> r.f.data == f.data && r.n <= want && (r.full ==> r.n > 0) && SentSlice(o, r.o, f.data, off, r.n))
  {
    var chunk := Pread(f, want, off).1;
    if chunk.Ok? && chunk.value != [] {
      var nsent := Send(o, chunk.value).1;
      if nsent > 0 {
        SubSlice(f.data, off, off + Min(want, |f.data| - off), nsent);
      }
    }
  }

  /** The loop of sys_sendfile. */
  function SendfileLoop(o: Out, f: File, off: nat, remaining: nat): Moved
    decreases remaining
  {
    if remaining == 0 then Moved(o, 0, 0)
    else
      RoundExact(o, f, Min(remaining, CHUNK), off);
      var round := OneRound(o, f, Min(remaining, CHUNK), off);
      if round.Failed? then Moved(round.o, 0, round.error)
      else if round.Eof? then Moved(o, 0, 0)
      else if !round.full then Moved(round.o, round.n, 0)
      else
        var m := SendfileLoop(round.o, round.f, off + round.n, remaining - round.n);
        m.(n := round.n + m.n)
  }

  /** The result, and the offset left for the caller. */
  function Sendfile(o: Out, f: File, start: nat, count: nat): (Out, int, nat) {
    var m := SendfileLoop(o, f, start, count);
    (m.o, Report(m), start + m.n)
  }

  lemma SentJoin(o: Out, o1: Out, o2: Out, data: Bytes, off: nat, a: nat, b: nat)
    requires SentSlice(o, o1, data, off, a) && SentSlice(o1, o2, data, off + a, b)
    ensures SentSlice(o, o2, data, off, a + b)
  {
    if a > 0 && b > 0 {
      assert data[off..off + a] + data[off + a..off + a + b] == data[off..off + a + b];
    }
  }

  lemma {:induction false} SendfileLoopExact(o: Out, f: File, off: nat, remaining: nat)
    ensures var m := SendfileLoop(o, f, off, remaining);
            m.n <= remaining && SentSlice(o, m.o, f.data, off, m.n)
    decreases remaining
  {
    if remaining > 0 {
      RoundExact(o, f, Min(remaining, CHUNK), off);
      var round := OneRound(o, f, Min(remaining, CHUNK), off);
      if round.Sent? && round.full {
        SendfileLoopExact(round.o, round.f, off + round.n, remaining - round.n);
        FullRoundJoins(o, f, off, remaining, round, SendfileLoop(round.o, round.f, off + round.n, remaining - round.n));
      } else {
        LastRound(o, f, off, remaining);
      }
    }
  }

  lemma LastRound(o: Out, f: File, off: nat, remaining: nat)
    requires remaining > 0
    requires var round := OneRound(o, f, Min(remaining, CHUNK), off); !(round.Sent? && round.full)
    ensures var m := SendfileLoop(o, f, off, remaining);
            m.n <= remaining && SentSlice(o, m.o, f.data, off, m.n)
  {
    RoundExact(o, f, Min(remaining, CHUNK), off);
  }

  lemma FullRoundJoins(o: Out, f: File, off: nat, remaining: nat, round: Round, m: Moved)
    requires remaining > 0 && round == OneRound(o, f, Min(remaining, CHUNK), off) && round.Sent? && round.full
    requires 0 < round.n <= remaining && SentSlice(o, round.o, f.data, off, round.n)
    requires m == SendfileLoop(round.o, round.f, off + round.n, remaining - round.n)
    requires m.n <= remaining - round.n && SentSlice(round.o, m.o, f.data, off + round.n, m.n)
    ensures var all := SendfileLoop(o, f, off, remaining);
            all.n <= remaining && SentSlice(o, all.o, f.data, off, all.n)
  {
    SentJoin(o, round.o, m.o, f.data, off, round.n, m.n);
    assert SendfileLoop(o, f, off, remaining) == m.(n := round.n + m.n);
  }

  /** A sendfile sends exactly the file slice it reports and moves the offset by that much. */
  lemma SendfileExact(o: Out, f: File, start: nat, count: nat)
    ensures var (o', r, off) := Sendfile(o, f, start, count);
            if r < 0 then o'.sent == o.sent && off == start
            else r <= count && off == start + r && SentSlice(o, o', f.data, start, r)
  {
    SendfileLoopExact(o, f, start, count);
  }

  /** An error is returned exactly when the first read fails, or there are bytes and the first attempt is refused. */
  lemma SendfileFailsIff(o: Out, f: File, start: nat, count: nat)
    ensures var r := Sendfile(o, f, start, count).1;
            && (r < 0 <==> count > 0 && (f.alive == 0 || (start < |f.data| && FirstAnswer(o) < 0)))
            && (r < 0 ==> r == if f.alive == 0 then EBADF else FirstAnswer(o))
  {
    if count > 0 {
      RoundExact(o, f, Min(count, CHUNK), start);
    }
  }

  /** A socket that accepts everything gets all that the file has, up to the count. */
  lemma {:induction false} SendfileAll(o: Out, f: File, off: nat, remaining: nat)
    requires f.alive > remaining && Accepts(o, remaining, CHUNK)
    ensures var m := SendfileLoop(o, f, off, remaining);
            m.error == 0 && m.n == if off < |f.data| then Min(remaining, |f.data| - off) else 0
    decreases remaining
  {
    if remaining > 0 && off < |f.data| {
      var want := Min(remaining, CHUNK);
      RoundExact(o, f, want, off);
      var round := FullRound(o, f, want, off, remaining);
      SendfileAll(round.o, round.f, off + round.n, remaining - round.n);
    }
  }

  lemma FullRound(o: Out, f: File, want: nat, off: nat, k: nat) returns (round: Round)
    requires f.alive > k && Accepts(o, k, CHUNK) && 0 < want <= CHUNK && want <= k && off < |f.data|
    ensures round == OneRound(o, f, want, off) && round.Sent? && round.full && round.n == Min(want, |f.data| - off) > 0
    ensures Accepts(round.o, k - round.n, CHUNK) && round.f == f.(alive := f.alive - 1)
  {
    round := OneRound(o, f, want, off);
    SendAll(o, Pread(f, want, off).1.value, k, CHUNK);
  }

  /** A caller that resumes each sendfile at the offset the previous one left. */
  ghost predicate ResumedSendfile(data: Bytes, outs: seq<Out>, alive: seq<nat>, counts: seq<nat>, offs: seq<nat>) {
    && |outs| == |offs| == |counts| + 1 && |alive| == |counts|
    && forall k :: 0 <= k < |counts| ==>
         && outs[k + 1].sent == Sendfile(outs[k], File(data, alive[k]), offs[k], counts[k]).0.sent
         && offs[k + 1] == Sendfile(outs[k], File(data, alive[k]), offs[k], counts[k]).2
  }

  /** Together the calls send one contiguous slice of the file, without gap or repetition. */
  lemma {:induction false} SendfileResumes(data: Bytes, outs: seq<Out>, alive: seq<nat>, counts: seq<nat>, offs: seq<nat>, k: nat)
    requires ResumedSendfile(data, outs, alive, counts, offs) && k < |outs|
    ensures offs[0] <= offs[k] && SentSlice(outs[0], outs[k], data, offs[0], offs[k] - offs[0])
  {
    if k > 0 {
      var j := k - 1;
      SendfileResumes(data, outs, alive, counts, offs, j);
      var o := Sendfile(outs[j], File(data, alive[j]), offs[j], counts[j]).0;
      assert outs[j + 1].sent == o.sent;
      SendfileExact(outs[j], File(data, alive[j]), offs[j], counts[j]);
      SentJoin(outs[0], outs[j], outs[k], data, offs[0], offs[j] - offs[0], offs[k] - offs[j]);
    }
  }

  // ---------- The calls in place ----------

  class Socket {
    var sent: Bytes
    var script: seq<int>

    ghost function Abs(): Out
      reads this
    {
      Out(sent, script)
    }

    method SysWrite(buf: Bytes) returns (r: int)
      modifies this
      ensures (Abs(), r) == Send(old(Abs()), buf)
    {
      if script == [] {
        return EAGAIN;
      }
      r := script[0];
      script := script[1..];
      if r >= 0 {
        r := Min(r, |buf|);
        sent := sent + buf[..r];
      }
    }

    method SysWritev(iov: seq<Bytes>) returns (r: int)
      modifies this
      ensures (Abs(), r) == Writev(old(Abs()), iov)
    {
      ghost var goal := WritevLoop(Abs(), iov);
      var total := 0;
      for i := 0 to |iov|
        invariant total >= 0
        invariant goal == WritevLoop(Abs(), iov[i..]).(n := WritevLoop(Abs(), iov[i..]).n + total)
      {
        assert iov[i..][0] == iov[i] && iov[i..][1..] == iov[i + 1..];
        if |iov[i]| == 0 {
          continue;
        }
        var written := SysWrite(iov[i]);
        if written < 0 {
          return if total > 0 then total else written;
        }
        total := total + written;
        if written < |iov[i]| {
          return total;
        }
      }
      return total;
    }

    /** `start` is the caller's offset, or the file position when there is none. */
    method SysSendfile(outIsSocket: bool, inIsFile: bool, file: File, start: nat, count: nat) returns (r: int, off: nat)
      modifies this
      ensures !outIsSocket || !inIsFile ==> r == EINVAL && off == start && Abs() == old(Abs())
      ensures outIsSocket && inIsFile ==> (Abs(), r, off) == Sendfile(old(Abs()), file, start, count)
    {
      off := start;
      if !outIsSocket || !inIsFile {
        return EINVAL, off;
      }
      ghost var goal := SendfileLoop(Abs(), file, start, count);
      var f, total, remaining := file, 0, count;
      while remaining > 0
        invariant total >= 0 && remaining >= 0 && off == start + total
        invariant goal == SendfileLoop(Abs(), f, off, remaining).(n := SendfileLoop(Abs(), f, off, remaining).n + total)
        decreases remaining
      {
        RoundExact(Abs(), f, Min(remaining, CHUNK), off);
        var round := SendRound(f, Min(remaining, CHUNK), off);
        if round.Failed? {
          if total > 0 {
            break;
          }
          return round.error, off;
        }
        if round.Eof? {
          break;
        }
        f := round.f;
        total, off, remaining := total + round.n, off + round.n, remaining - round.n;
        if !round.full {
          break;
        }
      }
      r := total;
    }

    /** Reads one chunk and offers it to the socket. */
    method SendRound(f: File, want: nat, off: nat) returns (round: Round)
      modifies this
      ensures round == OneRound(old(Abs()), f, want, off)
      ensures Abs() == if round.Eof? then old(Abs()) else round.o
    {
      var (f', chunk) := Pread(f, want, off);
      if chunk.Err? {
        return Failed(Out(sent, script), chunk.error);
      }
      if chunk.value == [] {
        return Eof;
      }
      var nsent := SysWrite(chunk.value);
      if nsent < 0 {
        return Failed(Out(sent, script), nsent);
      }
      return Sent(Out(sent, script), f', nsent, nsent == |chunk.value|);
    }
  }
}
