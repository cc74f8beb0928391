/** Counting, over a sequence, how often its elements hold a given number. */
module Tallies {
  import opened Lists

  function Tally<T>(s: seq<T>, f: (T, int) -> nat, h: int): nat {
    if s == [] then 0 else f(s[0], h) + Tally(s[1..], f, h)
  }

  function Is(x: int, h: int): nat { if x == h then 1 else 0 }

  function Count(s: seq<int>, h: int): nat { Tally(s, Is, h) }

  lemma {:induction false} TallyConcat<T>(a: seq<T>, b: seq<T>, f: (T, int) -> nat, h: int)
    ensures Tally(a + b, f, h) == Tally(a, f, h) + Tally(b, f, h)
  {
    if a == [] {
      assert a + b == b;
    } else {
      TallyConcat(a[1..], b, f, h);
      assert (a + b)[1..] == a[1..] + b;
    }
  }

  lemma TallyOne<T>(x: T, f: (T, int) -> nat, h: int)
    ensures Tally([x], f, h) == f(x, h)
  {
    assert [x][1..] == [];
  }

  lemma TallyAppend<T>(s: seq<T>, x: T, f: (T, int) -> nat, h: int)
    ensures Tally(s + [x], f, h) == Tally(s, f, h) + f(x, h)
  {
    TallyConcat(s, [x], f, h);
    TallyOne(x, f, h);
  }

  lemma TallySplit<T>(s: seq<T>, i: nat, f: (T, int) -> nat, h: int)
    requires i < |s|
    ensures Tally(s, f, h) == Tally(s[..i], f, h) + f(s[i], h) + Tally(s[i + 1..], f, h)
  {
    assert s == s[..i] + ([s[i]] + s[i + 1..]);
    TallyConcat(s[..i], [s[i]] + s[i + 1..], f, h);
    TallyConcat([s[i]], s[i + 1..], f, h);
    TallyOne(s[i], f, h);
  }

  lemma TallyRemove<T>(s: seq<T>, i: nat, f: (T, int) -> nat, h: int)
    requires i < |s|
    ensures Tally(s, f, h) == Tally(RemoveAt(s, i), f, h) + f(s[i], h)
  {
    TallySplit(s, i, f, h);
    TallyConcat(s[..i], s[i + 1..], f, h);
  }

  lemma TallyUpdate<T>(s: seq<T>, i: nat, x: T, f: (T, int) -> nat, h: int)
    requires i < |s|
    ensures Tally(s[i := x], f, h) == Tally(s, f, h) - f(s[i], h) + f(x, h)
  {
    var t := s[i := x];
    TallySplit(s, i, f, h);
    TallySplit(t, i, f, h);
    assert t[..i] == s[..i] && t[i + 1..] == s[i + 1..];
  }

  lemma TallySwapRemove<T>(s: seq<T>, i: nat, f: (T, int) -> nat, h: int)
    requires i < |s|
    ensures Tally(s, f, h) == Tally(SwapRemove(s, i), f, h) + f(s[i], h)
  {
    var n := |s| - 1;
    var u := s[i := s[n]];
    TallyUpdate(s, i, s[n], f, h);
    assert u == u[..n] + [s[n]];
    TallyAppend(u[..n], s[n], f, h);
  }

  /** A number is counted exactly when it occurs. */
  lemma {:induction false} CountIn(s: seq<int>, h: int)
    ensures Count(s, h) > 0 <==> h in s
  {
    if s != [] {
      CountIn(s[1..], h);
    }
  }

  /** Every element is part of the sum. */
  lemma TallyAtLeast<T>(s: seq<T>, i: nat, f: (T, int) -> nat, h: int)
    requires i < |s|
    ensures f(s[i], h) <= Tally(s, f, h)
  {
    TallySplit(s, i, f, h);
  }
}
