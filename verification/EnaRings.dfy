/**
 The ENA completion rings (src/net/ena/device.rs): one phase bit per slot tells a new completion from
 one of the previous lap. Laps are counted without bound here.
 */
module EnaRings {
  import opened RingArith

  const IO_DEPTH := 256
  const BUF_SIZE := 2048

  /** The phase bit of the k-th entry ever written: 1 on even laps, 0 on odd ones. */
  function Phase(k: nat): nat { (k / IO_DEPTH + 1) % 2 }

  /** A zeroed ring of phase bits after `n` entries were written in order. */
  ghost predicate Written(bits: seq<nat>, n: nat) {
    && |bits| == IO_DEPTH
    && (forall k: nat :: k < n <= k + IO_DEPTH ==> bits[k % IO_DEPTH] == Phase(k))
    && (forall k: nat :: n <= k < IO_DEPTH ==> bits[k] == 0)
  }

  lemma PhaseFlips(k: nat)
    ensures Phase(k + IO_DEPTH) == 1 - Phase(k) && (k + IO_DEPTH) % IO_DEPTH == k % IO_DEPTH
  {
    assert (k + IO_DEPTH) / IO_DEPTH == k / IO_DEPTH + 1;
  }

  /** The bit at the head matches exactly when an entry is there that was not read yet. */
  lemma PhaseExact(bits: seq<nat>, written: nat, read: nat)
    requires Written(bits, written) && read <= written < read + IO_DEPTH
    ensures bits[read % IO_DEPTH] == Phase(read) <==> read < written
  {
    if read == written {
      if read < IO_DEPTH {
        assert bits[read] == 0 && Phase(read) == 1;
      } else {
        PhaseFlips(read - IO_DEPTH);
      }
    }
  }

  lemma WriteNext(bits: seq<nat>, n: nat)
    requires Written(bits, n)
    ensures Written(bits[n % IO_DEPTH := Phase(n)], n + 1)
  {
    var after := bits[n % IO_DEPTH := Phase(n)];
    forall k: nat | k < n + 1 <= k + IO_DEPTH ensures after[k % IO_DEPTH] == Phase(k) {
      if k < n {
        SlotsApart(k, n, IO_DEPTH);
      }
    }
  }

  /** Advancing a head and its phase bit by hand follows the unbounded counter. */
  lemma HeadNext(k: nat)
    ensures (k + 1) % IO_DEPTH == (if k % IO_DEPTH + 1 == IO_DEPTH then 0 else k % IO_DEPTH + 1)
    ensures Phase(k + 1) == (if k % IO_DEPTH + 1 == IO_DEPTH then 1 - Phase(k) else Phase(k))
  {
    if k % IO_DEPTH + 1 == IO_DEPTH {
      assert (k + 1) / IO_DEPTH == k / IO_DEPTH + 1;
    } else {
      assert (k + 1) / IO_DEPTH == k / IO_DEPTH;
    }
  }

  /** The same for a wrapping u16 tail, whose slot is its low byte. */
  lemma TailNext(k: nat)
    ensures (k % U16 + 1) % U16 == (k + 1) % U16 && (k % U16) % IO_DEPTH == k % IO_DEPTH
    ensures Phase(k + 1) == (if ((k + 1) % U16) % IO_DEPTH == 0 then 1 - Phase(k) else Phase(k))
  {
    WrappedNext(k);
    SlotOfCounter(k, IO_DEPTH);
    SlotOfCounter(k + 1, IO_DEPTH);
    PhaseTurns(k);
  }

  lemma PhaseTurns(k: nat)
    ensures Phase(k + 1) == if (k + 1) % IO_DEPTH == 0 then 1 - Phase(k) else Phase(k)
  {
    HeadNext(k);
  }

  /** The u16 difference of two tails is the number of entries between them. */
  lemma TailDistance(newer: nat, older: nat)
    requires older <= newer < older + IO_DEPTH
    ensures (newer % U16 - older % U16 + U16) % U16 == newer - older
  {
    var d := newer - older;
    assert newer == older + d;
    assert (older % U16 + d) % U16 == newer % U16;
  }
}
