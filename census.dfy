/** Value-level views of a crate population: which ids are in which state, and
    the per-state census. */
module Census {
  import opened Common

  /** A crate seen as its id and its state. */
  type Entry = (nat, State)

  /** 1 if `e` has id `x` and state `s`, else 0. */
  function Hit(e: Entry, s: State, x: int): nat
  {
    if e.0 as int == x && e.1 == s then 1 else 0
  }

  /** How many entries have id `x` and state `s`. */
  function Occ(snap: seq<Entry>, s: State, x: int): nat
  {
    if snap == [] then 0 else Occ(snap[..|snap| - 1], s, x) + Hit(snap[|snap| - 1], s, x)
  }

  /** An id occurs for state `s` exactly when some entry has that id and state. */
  lemma {:induction false} OccMember(snap: seq<Entry>, s: State, x: int)
    ensures Occ(snap, s, x) > 0 <==> exists j :: 0 <= j < |snap| && snap[j].0 == x && snap[j].1 == s
  {
    if snap != [] {
      var init := snap[..|snap| - 1];
      OccMember(init, s, x);
      assert forall j :: 0 <= j < |init| ==> init[j] == snap[j];
    }
  }

  /** An id no entry has occurs for no state. */
  lemma {:induction false} OccAbsent(snap: seq<Entry>, s: State, x: int)
    requires forall j :: 0 <= j < |snap| ==> snap[j].0 != x
    ensures Occ(snap, s, x) == 0
  {
    if snap != [] {
      OccAbsent(snap[..|snap| - 1], s, x);
    }
  }

  /** No two entries share an id. */
  ghost predicate DistinctIds(snap: seq<Entry>)
  {
    forall i, j :: 0 <= i < j < |snap| ==> snap[i].0 != snap[j].0
  }

  /** Every id is below `n`. */
  ghost predicate IdsBelow(snap: seq<Entry>, n: nat)
  {
    forall j :: 0 <= j < |snap| ==> snap[j].0 < n
  }

  /** The `n` consecutive ids starting at `lo`, in increasing order. */
  function Range(lo: nat, n: nat): (r: seq<int>)
    ensures |r| == n && forall j :: 0 <= j < n ==> r[j] == lo + j
  {
    if n == 0 then [] else Range(lo, n - 1) + [lo + n - 1]
  }

  /** A bound on the ids stays a bound when it grows. */
  lemma IdsBelowGrow(snap: seq<Entry>, n: nat, m: nat)
    requires IdsBelow(snap, n) && n <= m
    ensures IdsBelow(snap, m)
  {
  }

  /** With distinct ids, the entry at `i` is the only one with its id. */
  lemma {:induction false} OccOfEntry(snap: seq<Entry>, i: nat, s: State)
    requires DistinctIds(snap) && i < |snap|
    ensures Occ(snap, s, snap[i].0) == (if snap[i].1 == s then 1 else 0)
  {
    var n := |snap| - 1;
    var init := snap[..n];
    if i == n {
      OccMember(init, s, snap[i].0);
    } else {
      assert init[i] == snap[i];
      OccOfEntry(init, i, s);
    }
  }

  /** With distinct ids, each id occurs at most once over all states. */
  lemma OccAtMostOnce(snap: seq<Entry>, s: State, x: int)
    requires DistinctIds(snap)
    ensures Occ(snap, s, x) <= 1
  {
    if Occ(snap, s, x) > 0 {
      OccMember(snap, s, x);
      var j :| 0 <= j < |snap| && snap[j].0 == x && snap[j].1 == s;
      OccOfEntry(snap, j, s);
    }
  }

  /** Appending a crate adds one occurrence of its id, to its own state only. */
  lemma OccAppend(snap: seq<Entry>, e: Entry, s: State, x: int)
    ensures Occ(snap + [e], s, x) == Occ(snap, s, x) + Hit(e, s, x)
  {
    assert (snap + [e])[..|snap|] == snap;
  }

  /** Changing the state of entry `i` to `t` moves its occurrence from the old
      state to `t`, and changes no other count. */
  lemma {:induction false} OccUpdate(snap: seq<Entry>, i: nat, t: State, s: State, x: int)
    requires i < |snap|
    ensures Occ(snap[i := (snap[i].0, t)], s, x) + Hit(snap[i], s, x)
         == Occ(snap, s, x) + Hit((snap[i].0, t), s, x)
  {
    var n := |snap| - 1;
    var snap' := snap[i := (snap[i].0, t)];
    var init, init' := snap[..n], snap'[..n];
    if i == n {
      assert init' == init;
    } else {
      assert init' == init[i := (snap[i].0, t)];
      assert init[i] == snap[i];
      OccUpdate(init, i, t, s, x);
    }
  }

  /** The id sequence `pool` holds each id exactly as often as `snap` has an
      entry with that id in state `s`. */
  ghost predicate Counts(pool: seq<int>, snap: seq<Entry>, s: State)
  {
    forall x {:trigger Occ(snap, s, x)} :: Mult(pool, x) == Occ(snap, s, x)
  }

  /** The id sequences `home`, `rented` and `lost` follow `snap`, each for its
      own state. */
  ghost predicate Tracked(home: seq<int>, rented: seq<int>, lost: seq<int>, snap: seq<Entry>)
  {
    Counts(home, snap, Home) && Counts(rented, snap, Rented) && Counts(lost, snap, Lost)
  }

  /** Appending entry `e` while `pool'` gains the id of `e` exactly when `e` is
      in state `s` keeps `pool'` following the population. */
  lemma CountsAppend(pool: seq<int>, pool': seq<int>, snap: seq<Entry>, e: Entry, s: State)
    requires Counts(pool, snap, s)
    requires forall y :: Mult(pool', y) == Mult(pool, y) + Hit(e, s, y)
    ensures Counts(pool', snap + [e], s)
  {
    forall x ensures Occ(snap + [e], s, x) == Occ(snap, s, x) + Hit(e, s, x) {
      OccAppend(snap, e, s, x);
    }
  }

  /** Appending entry `e` to the population and its id to the sequence of its
      own state only. */
  lemma TrackedAppend(home: seq<int>, rented: seq<int>, lost: seq<int>,
                      home': seq<int>, rented': seq<int>, lost': seq<int>, snap: seq<Entry>, e: Entry)
    requires Tracked(home, rented, lost, snap)
    requires forall y :: Mult(home', y) == Mult(home, y) + Hit(e, Home, y)
    requires forall y :: Mult(rented', y) == Mult(rented, y) + Hit(e, Rented, y)
    requires forall y :: Mult(lost', y) == Mult(lost, y) + Hit(e, Lost, y)
    ensures Tracked(home', rented', lost', snap + [e])
  {
    CountsAppend(home, home', snap, e, Home);
    CountsAppend(rented, rented', snap, e, Rented);
    CountsAppend(lost, lost', snap, e, Lost);
  }

  /** An entry with a new id below `n` keeps the ids distinct and below `n`,
      and its id is in no state yet. */
  lemma AppendKeeps(snap: seq<Entry>, e: Entry, n: nat)
    requires DistinctIds(snap) && IdsBelow(snap, n)
    requires e.0 < n && forall j :: 0 <= j < |snap| ==> snap[j].0 != e.0
    ensures DistinctIds(snap + [e]) && IdsBelow(snap + [e], n)
    ensures Occ(snap, Home, e.0) == 0 && Occ(snap, Rented, e.0) == 0 && Occ(snap, Lost, e.0) == 0
  {
    OccAbsent(snap, Home, e.0);
    OccAbsent(snap, Rented, e.0);
    OccAbsent(snap, Lost, e.0);
  }

  /** Moving entry `i` to state `t` while `pool'` loses its id when the old
      state is `s` and gains it when `t` is keeps `pool'` following the
      population. */
  lemma CountsMove(pool: seq<int>, pool': seq<int>, snap: seq<Entry>, i: nat, t: State, s: State)
    requires i < |snap| && Counts(pool, snap, s)
    requires forall y :: Mult(pool', y) + Hit(snap[i], s, y) == Mult(pool, y) + Hit((snap[i].0, t), s, y)
    ensures Counts(pool', snap[i := (snap[i].0, t)], s)
  {
    forall x
      ensures Occ(snap[i := (snap[i].0, t)], s, x) + Hit(snap[i], s, x) == Occ(snap, s, x) + Hit((snap[i].0, t), s, x)
    {
      OccUpdate(snap, i, t, s, x);
    }
  }

  /** Moving entry `i` to state `t` while its id moves from the sequence of its
      old state to that of `t`. */
  lemma TrackedMove(home: seq<int>, rented: seq<int>, lost: seq<int>,
                    home': seq<int>, rented': seq<int>, lost': seq<int>, snap: seq<Entry>, i: nat, t: State)
    requires i < |snap| && Tracked(home, rented, lost, snap)
    requires forall y :: Mult(home', y) + Hit(snap[i], Home, y) == Mult(home, y) + Hit((snap[i].0, t), Home, y)
    requires forall y :: Mult(rented', y) + Hit(snap[i], Rented, y) == Mult(rented, y) + Hit((snap[i].0, t), Rented, y)
    requires forall y :: Mult(lost', y) + Hit(snap[i], Lost, y) == Mult(lost, y) + Hit((snap[i].0, t), Lost, y)
    ensures Tracked(home', rented', lost', snap[i := (snap[i].0, t)])
  {
    CountsMove(home, home', snap, i, t, Home);
    CountsMove(rented, rented', snap, i, t, Rented);
    CountsMove(lost, lost', snap, i, t, Lost);
  }

  /** The number of entries in state `s`. */
  function Count(snap: seq<Entry>, s: State): nat
  {
    if snap == [] then 0 else Count(snap[..|snap| - 1], s) + (if snap[|snap| - 1].1 == s then 1 else 0)
  }

  /** Every entry is counted in exactly one state. */
  lemma {:induction false} CountsSum(snap: seq<Entry>)
    ensures Count(snap, Home) + Count(snap, Rented) + Count(snap, Lost) == |snap|
  {
    if snap != [] {
      CountsSum(snap[..|snap| - 1]);
    }
  }

  /** A population whose entries are all in state `s` counts all of them there
      and none elsewhere. */
  lemma {:induction false} CountAllIn(snap: seq<Entry>, s: State)
    requires forall j :: 0 <= j < |snap| ==> snap[j].1 == s
    ensures forall t :: Count(snap, t) == if t == s then |snap| else 0
  {
    if snap != [] {
      CountAllIn(snap[..|snap| - 1], s);
    }
  }

  /** Changing the state of one entry moves one unit of count between states. */
  lemma {:induction false} CountUpdate(snap: seq<Entry>, i: nat, t: State, s: State)
    requires i < |snap|
    ensures Count(snap[i := (snap[i].0, t)], s) + (if snap[i].1 == s then 1 else 0)
         == Count(snap, s) + (if t == s then 1 else 0)
  {
    var n := |snap| - 1;
    var snap' := snap[i := (snap[i].0, t)];
    if i == n {
      assert snap'[..n] == snap[..n];
    } else {
      assert snap'[..n] == snap[..n][i := (snap[i].0, t)];
      assert snap[..n][i] == snap[i];
      CountUpdate(snap[..n], i, t, s);
    }
  }

  /** The census of a population: one count per state, in the order home, rented,
      lost; the counts add up to the population size. */
  function Report(snap: seq<Entry>): (r: seq<(State, nat)>)
    ensures |r| == |States|
    ensures forall k :: 0 <= k < |r| ==> r[k].0 == States[k] && r[k].1 == Count(snap, States[k])
    ensures r[0].1 + r[1].1 + r[2].1 == |snap|
  {
    CountsSum(snap);
    [(Home, Count(snap, Home)), (Rented, Count(snap, Rented)), (Lost, Count(snap, Lost))]
  }

  /** What `Counts` means for one id: the pool holds `x` exactly when some
      entry has id `x` and state `s`, and, the ids being distinct, holds it at
      most once. */
  lemma CountsMeans(pool: seq<int>, snap: seq<Entry>, s: State, x: int)
    requires Counts(pool, snap, s) && DistinctIds(snap)
    ensures x in pool <==> exists j :: 0 <= j < |snap| && snap[j].0 == x && snap[j].1 == s
    ensures Mult(pool, x) <= 1
  {
    assert Mult(pool, x) == Occ(snap, s, x);
    MultIn(pool, x);
    OccMember(snap, s, x);
    OccAtMostOnce(snap, s, x);
  }
}
