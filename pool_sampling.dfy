/** Selection pools: per-state membership structures that decide which ids are
    due to leave their state on each tick. */
module PoolSampling {
  import opened Common

  /** `s` with every occurrence of `x` taken out and the rest kept in order
      (numpy's `s[s != x]`). */
  function Without(s: seq<int>, x: int): (r: seq<int>)
    ensures forall y :: y in r <==> y in s && y != x
  {
    if s == [] then []
    else
      assert s == [s[0]] + s[1..];
      (if s[0] == x then [] else [s[0]]) + Without(s[1..], x)
  }

  /** Removing an id distributes over concatenation, so relative order is kept. */
  lemma {:induction false} WithoutConcat(a: seq<int>, b: seq<int>, x: int)
    ensures Without(a + b, x) == Without(a, x) + Without(b, x)
  {
    if a != [] {
      assert (a + b)[1..] == a[1..] + b;
      WithoutConcat(a[1..], b, x);
    } else {
      assert a + b == b;
    }
  }

  /** Removing an id that is not there changes nothing. */
  lemma {:induction false} WithoutAbsent(s: seq<int>, x: int)
    requires x !in s
    ensures Without(s, x) == s
  {
    if s != [] {
      WithoutAbsent(s[1..], x);
    }
  }

  /** The first `min(n, |s|)` elements of `s`. */
  function First(s: seq<int>, n: nat): (r: seq<int>)
    ensures |r| == Min(n, |s|)
    ensures r == s[..|r|]
  {
    if n <= |s| then s[..n] else s
  }

  /** The last `min(n, |s|)` elements of `s`, in insertion order. */
  function Last(s: seq<int>, n: nat): (r: seq<int>)
    ensures |r| == Min(n, |s|)
    ensures r == s[|s| - |r|..]
  {
    if n <= |s| then s[|s| - n..] else s
  }

  /** All ids held in a sequence of buckets, bucket 0 first. */
  function Flatten(b: seq<seq<int>>): seq<int>
  {
    if b == [] then [] else b[0] + Flatten(b[1..])
  }

  lemma {:induction false} FlattenConcat(a: seq<seq<int>>, c: seq<seq<int>>)
    ensures Flatten(a + c) == Flatten(a) + Flatten(c)
  {
    if a != [] {
      assert (a + c)[1..] == a[1..] + c;
      FlattenConcat(a[1..], c);
    } else {
      assert a + c == c;
    }
  }

  /** An id is held by the buckets exactly when some bucket holds it. */
  lemma {:induction false} InFlatten(b: seq<seq<int>>, x: int)
    ensures x in Flatten(b) <==> exists k :: 0 <= k < |b| && x in b[k]
  {
    if b != [] {
      InFlatten(b[1..], x);
      assert forall k :: 1 <= k < |b| ==> b[k] == b[1..][k - 1];
      if x in Flatten(b[1..]) {
        var k :| 0 <= k < |b[1..]| && x in b[1..][k];
        assert x in b[k + 1];
      }
    }
  }

  /** Filtering out `v` removes all its occurrences and keeps those of every other id. */
  lemma {:induction false} MultWithoutAt(s: seq<int>, v: int, y: int)
    ensures Mult(Without(s, v), y) == if y == v then 0 else Mult(s, y)
  {
    if s != [] {
      MultWithoutAt(s[1..], v, y);
      MultConcat(if s[0] == v then [] else [s[0]], Without(s[1..], v), y);
    }
  }

  lemma MultWithout(s: seq<int>, v: int)
    ensures forall y :: Mult(Without(s, v), y) == if y == v then 0 else Mult(s, y)
  {
    forall y ensures Mult(Without(s, v), y) == if y == v then 0 else Mult(s, y) {
      MultWithoutAt(s, v, y);
    }
  }

  /** Replacing bucket `k` by `v` swaps the occurrences of bucket `k` for those of `v`. */
  lemma FlattenUpdate(b: seq<seq<int>>, k: nat, v: seq<int>, y: int)
    requires k < |b|
    ensures Mult(Flatten(b[k := v]), y) + Mult(b[k], y) == Mult(Flatten(b), y) + Mult(v, y)
  {
    var b' := b[k := v];
    assert b == b[..k] + ([b[k]] + b[k + 1..]);
    assert b' == b[..k] + ([v] + b[k + 1..]);
    FlattenConcat(b[..k], [b[k]] + b[k + 1..]);
    FlattenConcat([b[k]], b[k + 1..]);
    FlattenConcat(b[..k], [v] + b[k + 1..]);
    FlattenConcat([v], b[k + 1..]);
    assert Flatten([b[k]]) == b[k] + Flatten([]);
    assert Flatten([v]) == v + Flatten([]);
    var rest := Flatten(b[k + 1..]);
    MultConcat(Flatten(b[..k]), b[k] + rest, y);
    MultConcat(b[k], rest, y);
    MultConcat(Flatten(b[..k]), v + rest, y);
    MultConcat(v, rest, y);
  }

  /** Appending an id to bucket `k` adds one occurrence of it to the ids held. */
  lemma FlattenAppendAt(b: seq<seq<int>>, k: nat, idx: int)
    requires k < |b|
    ensures forall y :: Mult(Flatten(b[k := b[k] + [idx]]), y) == Mult(Flatten(b), y) + (if y == idx then 1 else 0)
  {
    MultAppend(b[k], idx);
    forall y ensures Mult(Flatten(b[k := b[k] + [idx]]), y) == Mult(Flatten(b), y) + (if y == idx then 1 else 0) {
      FlattenUpdate(b, k, b[k] + [idx], y);
    }
  }

  /** Filtering out of bucket `k` an id the buckets hold once, there, removes that
      occurrence and keeps all others. */
  lemma FlattenWithoutAt(b: seq<seq<int>>, k: nat, idx: int)
    requires k < |b| && idx in b[k] && Mult(Flatten(b), idx) == 1
    ensures forall y :: Mult(Flatten(b[k := Without(b[k], idx)]), y) == if y == idx then 0 else Mult(Flatten(b), y)
  {
    MultIn(b[k], idx);
    MultWithout(b[k], idx);
    forall y ensures Mult(Flatten(b[k := Without(b[k], idx)]), y) == if y == idx then 0 else Mult(Flatten(b), y) {
      FlattenUpdate(b, k, Without(b[k], idx), y);
    }
  }

  /** Buckets that are all empty hold no id. */
  lemma {:induction false} FlattenEmpty(b: seq<seq<int>>)
    requires forall k :: 0 <= k < |b| ==> b[k] == []
    ensures Flatten(b) == []
  {
    if b != [] {
      FlattenEmpty(b[1..]);
    }
  }

  /** The aging step of the delayed FIFO: bucket 1 joins the end of bucket 0,
      every later bucket moves one step toward 0 and the last becomes empty.
      With a single bucket (delay 0) nothing moves. */
  function Shifted(b: seq<seq<int>>): (r: seq<seq<int>>)
    requires |b| > 0
    ensures |r| == |b|
    ensures |b| == 1 ==> r == b
    ensures |b| > 1 ==> r[0] == b[0] + b[1] && r[|b| - 1] == []
    ensures forall k :: 1 <= k < |b| - 1 ==> r[k] == b[k + 1]
  {
    if |b| == 1 then b else [b[0] + b[1]] + b[2..] + [[]]
  }

  /** The aging step neither loses, duplicates nor reorders an id: read bucket
      by bucket, the ids are the same sequence before and after. */
  lemma {:induction false} ShiftedKeepsMembers(b: seq<seq<int>>)
    requires |b| > 0
    ensures Flatten(Shifted(b)) == Flatten(b)
  {
    if |b| > 1 {
      var s, m := Shifted(b), b[2..];
      assert s[0] == b[0] + b[1] && s[1..] == m + [[]];
      FlattenConcat(m, [[]]);
      assert Flatten([[]]) == [];
      assert b[1..][0] == b[1] && b[1..][1..] == m;
    }
  }

  /** The buckets after `k` draws and nothing else. */
  function Aged(b: seq<seq<int>>, k: nat): (r: seq<seq<int>>)
    requires |b| > 0
    ensures |r| == |b|
    ensures forall i :: 0 < i < |b| && |b| - k <= i ==> r[i] == []
  {
    if k == 0 then b else Shifted(Aged(b, k - 1))
  }

  /** Any number of draws neither loses, duplicates nor reorders an id. */
  lemma {:induction false} AgedKeepsMembers(b: seq<seq<int>>, k: nat)
    requires |b| > 0
    ensures Flatten(Aged(b, k)) == Flatten(b)
  {
    if k > 0 {
      var a := Aged(b, k - 1);
      AgedKeepsMembers(b, k - 1);
      ShiftedKeepsMembers(a);
      assert Aged(b, k) == Shifted(a);
    }
  }

  /** An id that sits in bucket `j` and in no earlier bucket is, after `k <= j`
      draws, in bucket `j - k` and in no earlier bucket. */
  lemma {:induction false} AgedPosition(b: seq<seq<int>>, x: int, j: nat, k: nat)
    requires j < |b| && k <= j
    requires x in b[j]
    requires forall i :: 0 <= i < j ==> x !in b[i]
    ensures x in Aged(b, k)[j - k]
    ensures forall i :: 0 <= i < j - k ==> x !in Aged(b, k)[i]
  {
    if k > 0 {
      AgedPosition(b, x, j, k - 1);
      var a := Aged(b, k - 1);
      assert Aged(b, k) == Shifted(a);
      assert |a| > 1;
      forall i | 0 <= i < j - k
        ensures x !in Shifted(a)[i]
      {
        if i == 0 {
          assert Shifted(a)[0] == a[0] + a[1];
        } else {
          assert Shifted(a)[i] == a[i + 1];
        }
      }
      if j - k == 0 {
        assert Shifted(a)[0] == a[0] + a[1];
      } else {
        assert Shifted(a)[j - k] == a[j - k + 1];
      }
    }
  }

  /** An id ingressed into a delayed FIFO with `delay` buckets ahead of it is not
      in bucket 0, so no draw can return it, while it has aged fewer than `delay`
      times; it is in bucket 0 after exactly `delay` draws. */
  lemma DueAfterExactlyDelay(b: seq<seq<int>>, x: int)
    requires |b| > 0 && x in b[|b| - 1]
    requires forall i :: 0 <= i < |b| - 1 ==> x !in b[i]
    ensures forall k :: 0 <= k < |b| - 1 ==> x !in Aged(b, k)[0]
    ensures x in Aged(b, |b| - 1)[0]
  {
    forall k | 0 <= k < |b| - 1
      ensures x !in Aged(b, k)[0]
    {
      AgedPosition(b, x, |b| - 1, k);
    }
    var last := |b| - 1;
    AgedPosition(b, x, last, last);
    assert last - last == 0;
  }

  /** Each bucket with `x` taken out. */
  function WithoutEach(b: seq<seq<int>>, x: int): (r: seq<seq<int>>)
    ensures |r| == |b|
    ensures forall k :: 0 <= k < |b| ==> r[k] == Without(b[k], x)
  {
    seq(|b|, k requires 0 <= k < |b| => Without(b[k], x))
  }

  /** The ids of a countdown map whose counter has gone below zero. */
  function Due(c: map<int, real>): (r: set<int>)
    ensures forall x :: x in r <==> x in c && c[x] < 0.0
  {
    set x | x in c && c[x] < 0.0
  }

  /** Every counter one lower, the same keys. */
  function Decremented(c: map<int, real>): (r: map<int, real>)
    ensures r.Keys == c.Keys
    ensures forall x :: x in c ==> r[x] == c[x] - 1.0
  {
    map x | x in c :: c[x] - 1.0
  }

  /** The countdown after `k` draws. */
  function Counted(c: map<int, real>, k: nat): (r: map<int, real>)
    ensures r.Keys == c.Keys
  {
    if k == 0 then c else Decremented(Counted(c, k - 1))
  }

  /** An id whose counter was `c[x]` after `k` draws has counter `c[x] - k`, so it
      is returned by draw number `k + 1` exactly when `c[x] - k < 0`. */
  lemma {:induction false} CountedValue(c: map<int, real>, x: int, k: nat)
    requires x in c
    ensures x in Counted(c, k) && Counted(c, k)[x] == c[x] - k as real
    ensures x in Due(Counted(c, k)) <==> c[x] - k as real < 0.0
  {
    if k > 0 {
      CountedValue(c, x, k - 1);
    }
  }

  /** The draw behaviour of the two pools kept in a plain array. */
  datatype Discipline = Lifo | Sink

  /** The base pool: an id array that `ingress` appends to and `egress` filters;
      its `draw` is LIFO's (the last `n` in insertion order) or Sink's (nothing). */
  class ArrayPool {
    const discipline: Discipline
    var pool: seq<int>

    constructor (discipline: Discipline)
      ensures this.discipline == discipline && pool == []
    {
      this.discipline := discipline;
      pool := [];
    }

    method Ingress(idx: int)
      modifies this
      ensures pool == old(pool) + [idx]
    {
      pool := pool + [idx];
    }

    method Egress(idx: int)
      modifies this
      ensures pool == Without(old(pool), idx)
    {
      pool := Without(pool, idx);
    }

    method Remove(idx: int)
      modifies this
      ensures pool == Without(old(pool), idx)
    {
      Egress(idx);
    }

    /** The ids due to leave; reading the pool does not change it. A Sink never
        returns anything. */
    function Draw(n: nat): (drawn: seq<int>)
      reads this
      ensures discipline == Lifo ==> drawn == Last(pool, n)
      ensures discipline == Sink ==> drawn == []
      ensures |drawn| <= n && forall y :: Mult(drawn, y) <= Mult(pool, y)
    {
      assert pool == pool[..|pool| - Min(n, |pool|)] + Last(pool, n);
      forall y ensures Mult(Last(pool, n), y) <= Mult(pool, y) {
        MultConcat(pool[..|pool| - Min(n, |pool|)], Last(pool, n), y);
      }
      match discipline
      case Lifo => Last(pool, n)
      case Sink => []
    }
  }

  /** LIFO returns the newest `min(n, |pool|)` ids, and nothing for `n = 0`. */
  lemma LifoDrawsNewest(s: seq<int>, n: nat, i: nat)
    requires i < Min(n, |s|)
    ensures |Last(s, n)| == Min(n, |s|) && Last(s, n)[i] == s[|s| - Min(n, |s|) + i]
  {
  }

  /** A FIFO that releases ids only after `delay` draws. */
  class Fifo {
    const delay: nat
    var buckets: seq<seq<int>>

    ghost predicate Valid()
      reads this
    {
      |buckets| == delay + 1
    }

    constructor (delay: nat)
      ensures Valid() && this.delay == delay
      ensures forall k :: 0 <= k <= delay ==> buckets[k] == []
    {
      this.delay := delay;
      buckets := seq(delay + 1, _ => []);
    }

    /** A new id enters the last bucket; the other buckets are untouched. */
    method Ingress(idx: int)
      requires Valid()
      modifies this
      ensures Valid()
      ensures buckets == old(buckets)[delay := old(buckets)[delay] + [idx]]
    {
      buckets := buckets[delay := buckets[delay] + [idx]];
    }

    /** Only a due id (one in bucket 0) may leave, and only bucket 0 changes. */
    method Egress(idx: int)
      requires Valid() && idx in buckets[0]
      modifies this
      ensures Valid()
      ensures buckets == old(buckets)[0 := Without(old(buckets)[0], idx)]
    {
      buckets := buckets[0 := Without(buckets[0], idx)];
    }

    /** Force an id out of every bucket, due or not. */
    method Remove(idx: int)
      requires Valid()
      modifies this
      ensures Valid()
      ensures buckets == WithoutEach(old(buckets), idx)
    {
      for k := 0 to delay + 1
        invariant |buckets| == delay + 1
        invariant forall j :: 0 <= j < k ==> buckets[j] == Without(old(buckets)[j], idx)
        invariant forall j :: k <= j <= delay ==> buckets[j] == old(buckets)[j]
      {
        buckets := buckets[k := Without(buckets[k], idx)];
      }
    }

    /** Return the first `min(n, |bucket 0|)` ids of bucket 0 and, whatever `n` is,
        age every bucket one step. */
    method Draw(n: nat) returns (drawn: seq<int>)
      requires Valid()
      modifies this
      ensures Valid()
      ensures drawn == First(old(buckets)[0], n)
      ensures buckets == Shifted(old(buckets))
    {
      drawn := if n <= |buckets[0]| then buckets[0][..n] else buckets[0];
      if delay > 0 {
        buckets := buckets[0 := buckets[0] + buckets[1]];
        for k := 1 to delay
          invariant |buckets| == delay + 1
          invariant buckets[0] == old(buckets)[0] + old(buckets)[1]
          invariant forall j :: 1 <= j < k ==> buckets[j] == old(buckets)[j + 1]
          invariant forall j :: k <= j <= delay ==> buckets[j] == old(buckets)[j]
        {
          buckets := buckets[k := buckets[k + 1]];
        }
        buckets := buckets[delay := []];
        assert buckets == [old(buckets)[0] + old(buckets)[1]] + old(buckets)[2..] + [[]];
      }
    }
  }

  /** No id occurs twice. */
  ghost predicate Distinct(s: seq<int>)
  {
    forall x :: Mult(s, x) <= 1
  }

  /** In a sequence without repeats, two positions hold two different ids. */
  lemma DistinctAt(s: seq<int>, i: int, j: int)
    requires Distinct(s) && 0 <= i < j < |s|
    ensures s[i] != s[j]
  {
    var x := s[i];
    assert s == s[..j] + s[j..];
    assert s[..j][i] == x && s[j..][0] == s[j];
    MultConcat(s[..j], s[j..], x);
    MultIn(s[..j], x);
  }

  /** Removing an id from a sequence without repeats leaves one without repeats. */
  lemma WithoutDistinct(s: seq<int>, x: int)
    requires Distinct(s)
    ensures Distinct(Without(s, x))
  {
    MultWithout(s, x);
  }

  /** The keys of `keys` whose counter is below zero, in the order of `keys`. */
  function DueIn(keys: seq<int>, c: map<int, real>): (r: seq<int>)
    requires forall k :: k in keys ==> k in c
    ensures forall x :: x in r <==> x in keys && c[x] < 0.0
  {
    if keys == [] then []
    else
      var k := keys[0];
      assert k in keys;
      (if c[k] < 0.0 then [k] else []) + DueIn(keys[1..], c)
  }

  /** A pool whose members each carry a countdown, set at ingress (the log of a
      log-normal draw, supplied by the caller) and lowered by one on every draw.
      The dictionary is kept as its keys in insertion order and the counters. */
  class LogNormal {
    const mean: real
    const std: real
    var order: seq<int>
    var counters: map<int, real>

    ghost predicate Valid()
      reads this
    {
      (forall k :: k in counters <==> k in order) && Distinct(order)
    }

    constructor (mean: real, std: real)
      ensures Valid() && this.mean == mean && this.std == std
      ensures order == [] && counters == map[]
    {
      this.mean := mean;
      this.std := std;
      order := [];
      counters := map[];
    }

    /** Start the countdown of `idx` at `steps`; a key already present keeps its place. */
    method Ingress(idx: int, steps: real)
      requires Valid()
      modifies this
      ensures Valid()
      ensures counters == old(counters)[idx := steps]
      ensures order == if idx in old(counters) then old(order) else old(order) + [idx]
    {
      if idx !in counters {
        MultIn(order, idx);
        MultAppend(order, idx);
        order := order + [idx];
      }
      counters := counters[idx := steps];
    }

    /** Drop `idx`; the dictionary `pop` fails on a missing key. */
    method Egress(idx: int)
      requires Valid() && idx in counters
      modifies this
      ensures Valid()
      ensures counters == old(counters) - {idx}
      ensures order == Without(old(order), idx)
    {
      WithoutDistinct(order, idx);
      order := Without(order, idx);
      counters := counters - {idx};
    }

    method Remove(idx: int)
      requires Valid() && idx in counters
      modifies this
      ensures Valid()
      ensures counters == old(counters) - {idx}
      ensures order == Without(old(order), idx)
    {
      Egress(idx);
    }

    /** Return the ids whose counter is below zero, in insertion order, then lower
        every counter by one. The requested count `n` is ignored. */
    method Draw(n: nat) returns (drawn: seq<int>)
      requires Valid()
      modifies this
      ensures Valid() && order == old(order)
      ensures drawn == DueIn(old(order), old(counters))
      ensures forall x :: x in drawn <==> x in Due(old(counters))
      ensures counters == Decremented(old(counters))
    {
      drawn := DueIn(order, counters);
      for i := 0 to |order|
        invariant order == old(order)
        invariant counters.Keys == old(counters).Keys
        invariant forall j :: 0 <= j < i ==> counters[order[j]] == old(counters)[order[j]] - 1.0
        invariant forall j :: i <= j < |order| ==> counters[order[j]] == old(counters)[order[j]]
      {
        forall j | i < j < |order|
          ensures order[j] != order[i]
        {
          DistinctAt(order, i, j);
        }
        counters := counters[order[i] := counters[order[i]] - 1.0];
      }
      forall x | x in counters
        ensures counters[x] == Decremented(old(counters))[x]
      {
        var j :| 0 <= j < |order| && order[j] == x;
      }
    }
  }
}
