/** The crate state machine and the pool that runs the daily simulation step. */
module StateMachine {
  import opened Common
  import opened Records
  import opened PoolSampling
  import opened Census

  /** The triggers of the crate state machine. */
  datatype Trigger = Rent | Recall | Lose

  /** The transition table: `None` where the trigger is not allowed in that state. */
  function Transition(s: State, t: Trigger): (r: Option<State>)
    ensures r.Some? <==> (s == Home && t == Rent) || (s == Rented && t != Rent)
    ensures r == Some(Home) <==> s == Rented && t == Recall
    ensures r == Some(Lost) <==> s == Rented && t == Lose
  {
    match (s, t)
    case (Home, Rent) => Some(Rented)
    case (Rented, Recall) => Some(Home)
    case (Rented, Lose) => Some(Lost)
    case _ => None
  }

  /** `t` with one more (mark, day) entry. */
  function Appended(t: Trip, mark: State, day: Day): (r: Trip)
    ensures r.id == t.id && r.crtId == t.crtId && r.createdAt == t.createdAt
    ensures r.states == t.states + [(mark, day)]
  {
    t.(states := t.states + [(mark, day)])
  }

  /** The trip a crate with id `id` in state `s` may hold: none at home,
      otherwise its own trip, which starts with a `rented` entry. */
  ghost predicate TripFits(id: nat, s: State, trip: Option<Trip>)
  {
    && (s == Home <==> trip.None?)
    && (trip.Some? ==> trip.value.crtId == id && |trip.value.states| > 0 && trip.value.states[0].0 == Rented)
  }

  /** A crate: its id, its creation day (`None` for the default the pool
      constructor leaves in place), its state and its open trip. */
  class CRT {
    const id: nat
    const createdAt: Option<Day>
    var state: State
    var trip: Option<Trip>

    ghost predicate Valid()
      reads this
    {
      TripFits(id, state, trip)
    }

    /** A new crate is at home with no trip and takes the next crate id. */
    constructor (createdAt: Option<Day>, ids: IdCounter)
      modifies ids
      ensures Valid() && state == Home && trip == None
      ensures this.createdAt == createdAt
      ensures id == old(ids.value) && ids.value == old(ids.value) + 1
    {
      var n := ids.Take();
      id := n;
      this.createdAt := createdAt;
      state := Home;
      trip := None;
    }

    /** Move to the next natural state. From home: open a trip and report it.
        From rented: close the trip with a `home` entry, report it and drop it.
        From lost: record one more loss, reporting nothing. */
    method Next(day: Day, tripIds: IdCounter) returns (reported: Option<Trip>)
      requires Valid()
      modifies this, tripIds
      ensures Valid()
      ensures old(state) == Home ==>
        && state == Rented
        && trip == Some(Trip(old(tripIds.value), id, day, [(Rented, day)]))
        && reported == trip
        && tripIds.value == old(tripIds.value) + 1
      ensures old(state) == Rented ==>
        && state == Home && trip == None
        && reported == Some(Appended(old(trip).value, Home, day))
        && tripIds.value == old(tripIds.value)
      ensures old(state) == Lost ==>
        && state == Lost
        && trip == Some(Appended(old(trip).value, Lost, day))
        && reported == None
        && tripIds.value == old(tripIds.value)
    {
      if state == Home {
        var t := NewTrip(tripIds, id, day, [(Rented, day)]);
        trip := Some(t);
        reported := trip;
        state := Transition(state, Rent).value;
      } else if state == Rented {
        var closed := Appended(trip.value, Home, day);
        reported := Some(closed);
        trip := None;
        state := Transition(state, Recall).value;
      } else {
        Lose(day);
        reported := None;
      }
    }

    /** Record a loss on `day` and move to lost; the trip stays attached and
        nothing is reported. Fails (no trip) on a crate at home. */
    method Lose(day: Day)
      requires Valid() && trip.Some?
      modifies this
      ensures Valid()
      ensures state == Lost && trip == Some(Appended(old(trip).value, Lost, day))
    {
      trip := Some(Appended(trip.value, Lost, day));
      state := Lost;
    }
  }

  /** A home crate that is moved on twice is rented and then home again, with
      one closed trip reported the second time. */
  method NextAlternates(day: Day, ids: IdCounter, tripIds: IdCounter) returns (s1: State, s2: State, closed: Option<Trip>)
    requires ids != tripIds
    modifies ids, tripIds
    ensures s1 == Rented && s2 == Home
    ensures closed.Some? && closed.value.states == [(Rented, day), (Home, day)]
  {
    var crt := new CRT(Some(day), ids);
    var r1 := crt.Next(day, tripIds);
    s1 := crt.state;
    closed := crt.Next(day, tripIds);
    s2 := crt.state;
  }

  /** Whether the crate `id`, in state `s`, is among the ids drawn from the pool of `s`. */
  function Requested(s: State, id: int, homeDue: seq<int>, rentedDue: seq<int>, lostDue: seq<int>): (r: bool)
    ensures r <==> id in (match s case Home => homeDue case Rented => rentedDue case Lost => lostDue)
  {
    match s
    case Home => id in homeDue
    case Rented => id in rentedDue
    case Lost => id in lostDue
  }

  /** The state after one day: a rented crate whose loss coin came up is lost;
      otherwise a drawn crate takes its natural next step (a lost crate stays
      lost); otherwise the state is kept. */
  function NextState(s: State, lossCoin: bool, due: bool): (r: State)
    ensures r == Lost <==> s == Lost || (s == Rented && lossCoin)
    ensures r != s ==> (s == Home && r == Rented) || s == Rented
    ensures s == Home ==> (r == Rented <==> due)
    ensures s == Rented ==> (r == Home <==> due && !lossCoin)
  {
    if s == Rented && lossCoin then Transition(s, Lose).value
    else if due && s == Home then Transition(s, Rent).value
    else if due && s == Rented then Transition(s, Recall).value
    else s
  }

  /** Every state change `NextState` makes is one the transition table allows. */
  lemma NextStateFollowsTable(s: State, lossCoin: bool, due: bool)
    ensures NextState(s, lossCoin, due) == s || exists t :: Transition(s, t) == Some(NextState(s, lossCoin, due))
  {
    var r := NextState(s, lossCoin, due);
    if r != s {
      if s == Home { assert Transition(s, Rent) == Some(r); }
      else if r == Home { assert Transition(s, Recall) == Some(r); }
      else { assert Transition(s, Lose) == Some(r); }
    }
  }

  /** The population after every crate of `before` has been visited once. */
  function Step(before: seq<Entry>, losses: set<nat>, homeDue: seq<int>, rentedDue: seq<int>, lostDue: seq<int>): (r: seq<Entry>)
    ensures |r| == |before|
    ensures forall j :: 0 <= j < |r| ==> r[j].0 == before[j].0
    ensures forall j :: 0 <= j < |r| ==>
      r[j].1 == NextState(before[j].1, before[j].0 in losses, Requested(before[j].1, before[j].0, homeDue, rentedDue, lostDue))
  {
    seq(|before|, j requires 0 <= j < |before| =>
      (before[j].0, NextState(before[j].1, before[j].0 in losses, Requested(before[j].1, before[j].0, homeDue, rentedDue, lostDue))))
  }

  /** From index `m` on, the entries are crates at home numbered on from `k`:
      the crates of one replenishment, in the order they were made. */
  ghost predicate Newcomers(entries: seq<Entry>, m: nat, k: int)
  {
    forall j :: m <= j < |entries| ==> entries[j] == (k + j - m, Home)
  }

  /** In one day every crate makes at most one move, a move the transition
      table allows, and a lost crate stays lost. */
  lemma StepFollowsTable(before: seq<Entry>, losses: set<nat>, homeDue: seq<int>, rentedDue: seq<int>,
                         lostDue: seq<int>, j: nat)
    requires j < |before|
    ensures var after := Step(before, losses, homeDue, rentedDue, lostDue);
      && after[j].0 == before[j].0
      && (after[j].1 == before[j].1 || exists t :: Transition(before[j].1, t) == Some(after[j].1))
      && (before[j].1 == Lost ==> after[j].1 == Lost)
  {
    NextStateFollowsTable(before[j].1, before[j].0 in losses, Requested(before[j].1, before[j].0, homeDue, rentedDue, lostDue));
  }

  /** The home FIFO of a new pool holds its crates `c` in the last of its eight
      buckets. With nothing moving in or out, after `k <= 7` draws they sit in
      bucket `7 - k` and every other bucket is empty. */
  lemma {:induction false} AgedQuiet(b: seq<seq<int>>, c: seq<int>, k: nat)
    requires |b| == 8 && b[7] == c && forall j :: 0 <= j < 7 ==> b[j] == []
    requires k <= 7
    ensures forall j :: 0 <= j < 8 ==> Aged(b, k)[j] == if j == 7 - k then c else []
  {
    if k > 0 {
      AgedQuiet(b, c, k - 1);
      var a := Aged(b, k - 1);
      assert Aged(b, k) == [a[0] + a[1]] + a[2..] + [[]];
      assert a[0] + a[1] == if k == 7 then c else [];
    }
  }

  /** Ten crates fresh from the pool constructor (ids `lo` on, all at home, in
      the last home bucket). Seven days of demand 0 move nothing; by the eighth
      draw all ten have reached bucket 0, and a demand of 1 rents out exactly
      one crate, the oldest. No crate is rented, so the loss coins `losses`
      play no part. */
  lemma TenCratesScenario(e: seq<Entry>, b: seq<seq<int>>, lo: nat, losses: set<nat>)
    requires |e| == 10 && forall j :: 0 <= j < 10 ==> e[j] == (lo + j, Home)
    requires |b| == 8 && b[7] == Range(lo, 10) && forall j :: 0 <= j < 7 ==> b[j] == []
    ensures forall k :: 0 <= k < 7 ==> Step(e, losses, First(Aged(b, k)[0], 0), [], []) == e
    ensures Aged(b, 7)[0] == Range(lo, 10)
    ensures Step(e, losses, First(Aged(b, 7)[0], 1), [], []) == e[0 := (lo, Rented)]
    ensures Count(Step(e, losses, First(Aged(b, 7)[0], 1), [], []), Rented) == 1
  {
    AgedQuiet(b, Range(lo, 10), 7);
    forall k | 0 <= k < 7
      ensures Step(e, losses, First(Aged(b, k)[0], 0), [], []) == e
    {
      assert First(Aged(b, k)[0], 0) == [];
    }
    var after := Step(e, losses, First(Aged(b, 7)[0], 1), [], []);
    assert First(Aged(b, 7)[0], 1) == [lo];
    assert forall j :: 0 <= j < 10 ==> after[j] == e[0 := (lo, Rented)][j];
    CountAllIn(e, Home);
    CountUpdate(e, 0, Rented, Rented);
  }

  /** Part way through a pass that rewrites `e0` into `after` element by
      element: `now` agrees with `after` before index `i` and with `e0` from it. */
  ghost predicate Visited(now: seq<Entry>, after: seq<Entry>, e0: seq<Entry>, i: nat)
  {
    && |now| == |e0| && |after| == |e0| && i <= |e0|
    && (forall j :: 0 <= j < i ==> now[j] == after[j])
    && (forall j :: i <= j < |e0| ==> now[j] == e0[j])
  }

  /** Rewriting element `i` advances the pass by one. */
  lemma VisitedStep(now: seq<Entry>, after: seq<Entry>, e0: seq<Entry>, i: nat)
    requires Visited(now, after, e0, i) && i < |e0|
    ensures now[i] == e0[i] && Visited(now[i := after[i]], after, e0, i + 1)
  {
  }

  /** A finished pass has produced `after`. */
  lemma VisitedAll(now: seq<Entry>, after: seq<Entry>, e0: seq<Entry>)
    requires Visited(now, after, e0, |e0|)
    ensures now == after
  {
  }

  /** How many of the first `i` crates went from home to rented in the pass
      from `e0` to `after`: the number of trips the pass opens. */
  function RentedOut(e0: seq<Entry>, after: seq<Entry>, i: nat): (r: nat)
    requires i <= |e0| && i <= |after|
    ensures r <= i
  {
    if i == 0 then 0 else RentedOut(e0, after, i - 1) + (if e0[i - 1].1 == Home && after[i - 1].1 == Rented then 1 else 0)
  }

  /** Only crates that were at home are rented out, so a pass opens at most as
      many trips as there were crates at home. */
  lemma {:induction false} RentedOutAtMostHome(e0: seq<Entry>, after: seq<Entry>, i: nat)
    requires i <= |e0| && i <= |after|
    ensures RentedOut(e0, after, i) <= Count(e0[..i], Home)
  {
    if i > 0 {
      RentedOutAtMostHome(e0, after, i - 1);
      assert e0[..i][..i - 1] == e0[..i - 1];
    }
  }

  /** No crate before index `i` has moved. */
  ghost predicate Quiet(after: seq<Entry>, e0: seq<Entry>, i: nat)
  {
    i <= |after| && i <= |e0| && forall j :: 0 <= j < i ==> after[j] == e0[j]
  }

  /** The trip `t` a crate holds at the end of a day in which it went from
      `before` to `after`, having held `t0`: the same trip if it did not move,
      a trip opened today if it went out, its trip with a `lost` entry for
      today if it was lost, and none if it came home. */
  ghost predicate TripAfter(before: Entry, after: Entry, t0: Option<Trip>, t: Option<Trip>, day: Day)
  {
    if after == before then t == t0
    else if before.1 == Home then
      t.Some? && t.value.crtId == before.0 && t.value.createdAt == day && t.value.states == [(Rented, day)]
    else if after.1 == Lost then t0.Some? && t == Some(Appended(t0.value, Lost, day))
    else t == None
  }

  /** Part way through the pass: the crates before `i` hold the trips
      `TripAfter` gives them, the others still hold their trips `t0`. */
  ghost predicate TripsAfter(trips: seq<Option<Trip>>, e0: seq<Entry>, after: seq<Entry>, t0: seq<Option<Trip>>, i: nat, day: Day)
  {
    && |trips| == |e0| && |after| == |e0| && |t0| == |e0| && i <= |e0|
    && (forall j :: 0 <= j < i ==> TripAfter(e0[j], after[j], t0[j], trips[j], day))
    && (forall j :: i <= j < |e0| ==> trips[j] == t0[j])
  }

  /** Every crate before `i` that came home has its closed trip, its trip
      `t0` with a `home` entry for today, registered in `t`. */
  ghost predicate ReturnsLogged(t: Table, e0: seq<Entry>, after: seq<Entry>, t0: seq<Option<Trip>>, i: nat, day: Day)
  {
    && |after| == |e0| && |t0| == |e0| && i <= |e0|
    && forall j :: 0 <= j < i && e0[j].1 == Rented && after[j].1 == Home ==>
      t0[j].Some? && t.Get(t0[j].value.id) == Some(Appended(t0[j].value, Home, day))
  }

  /** Crate `i` visited: the trips before `i + 1` are as `TripAfter` says. */
  lemma TripsAfterStep(trips: seq<Option<Trip>>, trips': seq<Option<Trip>>, e0: seq<Entry>, after: seq<Entry>,
                       t0: seq<Option<Trip>>, i: nat, day: Day)
    requires TripsAfter(trips, e0, after, t0, i, day) && i < |e0|
    requires |trips'| == |trips| && trips' == trips[i := trips'[i]] && TripAfter(e0[i], after[i], t0[i], trips'[i], day)
    ensures TripsAfter(trips', e0, after, t0, i + 1, day)
  {
  }

  /** A crate that did not move leaves the registry as it was. */
  lemma ReturnsLoggedQuiet(t: Table, e0: seq<Entry>, after: seq<Entry>, t0: seq<Option<Trip>>, i: nat, day: Day)
    requires ReturnsLogged(t, e0, after, t0, i, day) && i < |e0| && after[i] == e0[i]
    ensures ReturnsLogged(t, e0, after, t0, i + 1, day)
  {
  }

  /** A registration under an id no earlier crate's trip has keeps the
      earlier returns logged, and logs crate `i`'s return when it is one. */
  lemma ReturnsLoggedStep(t: Table, u: Trip, e0: seq<Entry>, after: seq<Entry>, t0: seq<Option<Trip>>, i: nat, day: Day)
    requires ReturnsLogged(t, e0, after, t0, i, day) && i < |e0|
    requires forall j :: 0 <= j < i && t0[j].Some? ==> t0[j].value.id != u.id
    requires e0[i].1 == Rented && after[i].1 == Home ==> t0[i].Some? && u == Appended(t0[i].value, Home, day)
    ensures ReturnsLogged(t.Put(u), e0, after, t0, i + 1, day)
  {
    forall j | 0 <= j < i + 1 && e0[j].1 == Rented && after[j].1 == Home
      ensures t0[j].Some? && t.Put(u).Get(t0[j].value.id) == Some(Appended(t0[j].value, Home, day))
    {
      if j < i {
        assert t.Get(t0[j].value.id) == Some(Appended(t0[j].value, Home, day));
      }
    }
  }

  /** The trips after a day's pass over the crates, from `e0` with trips `t0`
      to `after` with trips `trips`: every crate holds the trip `TripAfter`
      gives it, and every crate that came home has its closed trip, its trip
      in `t0` with a `home` entry for `day`, registered in `t`. */
  ghost predicate DayTrips(e0: seq<Entry>, after: seq<Entry>, t0: seq<Option<Trip>>, trips: seq<Option<Trip>>, t: Table, day: Day)
  {
    && |after| == |e0| && |t0| == |e0| && |trips| == |e0|
    && (forall j :: 0 <= j < |e0| ==> TripAfter(e0[j], after[j], t0[j], trips[j], day))
    && (forall j :: 0 <= j < |e0| && e0[j].1 == Rented && after[j].1 == Home ==>
          t0[j].Some? && t.Get(t0[j].value.id) == Some(Appended(t0[j].value, Home, day)))
  }

  /** The trip with id `k` was held at the start of the pass by none of the
      first `i` crates that have moved. */
  ghost predicate Untouched(e0: seq<Entry>, after: seq<Entry>, t0: seq<Option<Trip>>, i: nat, k: nat)
    requires i <= |e0| && |after| == |e0| && |t0| == |e0|
  {
    forall j {:trigger t0[j]} :: 0 <= j < i && t0[j].Some? && after[j] != e0[j] ==> t0[j].value.id != k
  }

  /** The registry only grows: every trip registered in `tb0` at the start of
      the pass is still registered in `t`, and one held by none of the first
      `i` crates that moved, a closed trip in particular, keeps its value. */
  ghost predicate LogKept(tb0: Table, t: Table, e0: seq<Entry>, after: seq<Entry>, t0: seq<Option<Trip>>, i: nat)
  {
    && i <= |e0| && |after| == |e0| && |t0| == |e0|
    && (forall k {:trigger k in tb0.trips} :: k in tb0.trips ==> k in t.trips)
    && (forall k {:trigger tb0.trips[k]} :: k in tb0.trips && Untouched(e0, after, t0, i, k) ==> t.trips[k] == tb0.trips[k])
  }

  /** A finished pass keeps the registry's earlier trips as `LogKept` says. */
  lemma KeptDone(tb0: Table, t: Table, e0: seq<Entry>, after: seq<Entry>, now: seq<Entry>, t0: seq<Option<Trip>>, n: nat)
    requires LogKept(tb0, t, e0, after, t0, n) && now == after && n == |e0|
    ensures LogKept(tb0, t, e0, now, t0, |e0|)
  {
  }

  /** A finished pass gives the day's trips. */
  lemma PassDone(trips: seq<Option<Trip>>, e0: seq<Entry>, after: seq<Entry>, t0: seq<Option<Trip>>, t: Table, day: Day)
    requires TripsAfter(trips, e0, after, t0, |e0|, day) && ReturnsLogged(t, e0, after, t0, |e0|, day)
    ensures DayTrips(e0, after, t0, trips, t, day)
  {
  }

  /** A pass that changed nothing was quiet throughout. */
  lemma QuietAll(after: seq<Entry>, e0: seq<Entry>)
    requires after == e0
    ensures Quiet(after, e0, |e0|)
  {
  }

  /** The trips held at the start of a day have ids below any later trip counter. */
  lemma TripIdsBelow(entries: seq<Entry>, trips: seq<Option<Trip>>, t: Table, n: nat, m: nat, m2: nat)
    requires Consistent(entries, trips, t, n, m) && m <= m2
    ensures forall j :: 0 <= j < |trips| && trips[j].Some? ==> trips[j].value.id < m2
  {
    forall j | 0 <= j < |trips| && trips[j].Some?
      ensures trips[j].value.id < m2
    {
      assert t.Holds(trips[j]);
    }
  }

  /** The crates `cs` as seen by the ghost views: crate `j` has the id and
      state of `entries[j]` and holds the trip `trips[j]`. */
  ghost predicate Mirrors(cs: seq<CRT>, entries: seq<Entry>, trips: seq<Option<Trip>>)
    reads cs
  {
    && |entries| == |cs| && |trips| == |cs|
    && forall j :: 0 <= j < |cs| ==> cs[j].id == entries[j].0 && cs[j].state == entries[j].1 && cs[j].trip == trips[j]
  }

  /** What holds of the crates as values: distinct ids below the next crate
      id, each crate's trip fits its state, and every open trip is the one the
      registry holds under its id, an id below the next trip id. */
  ghost predicate Consistent(entries: seq<Entry>, trips: seq<Option<Trip>>, t: Table, nextCrate: nat, nextTrip: nat)
  {
    && |trips| == |entries|
    && DistinctIds(entries) && IdsBelow(entries, nextCrate)
    && t.Below(nextTrip)
    && forall j :: 0 <= j < |entries| ==> TripFits(entries[j].0, entries[j].1, trips[j]) && t.Holds(trips[j])
  }

  /** Two crates never hold trips with the same id. */
  lemma TripsApart(entries: seq<Entry>, trips: seq<Option<Trip>>, t: Table, n: nat, m: nat, i: nat, j: nat)
    requires Consistent(entries, trips, t, n, m)
    requires i < |entries| && j < |entries| && i != j && trips[i].Some? && trips[j].Some?
    ensures trips[i].value.id != trips[j].value.id
  {
    assert entries[i].0 != entries[j].0;
    assert trips[i].value.crtId == entries[i].0 && trips[j].value.crtId == entries[j].0;
  }

  /** Crate `i` visited within the pass from `e0` (trips `t0`, registry `tb0`,
      counters `n0`, `m0`) to `after`: the trips `ts` become `ts2`, the registry
      `tb` becomes `tb2`, as `Visit` leaves them, with `m` the trip counter before
      the visit. The pass's trips and logged returns then reach crate `i + 1`. */
  lemma LogVisit(e0: seq<Entry>, after: seq<Entry>, t0: seq<Option<Trip>>, tb0: Table, n0: nat, m0: nat, i: nat,
                 ts: seq<Option<Trip>>, ts2: seq<Option<Trip>>, tb: Table, tb2: Table, m: nat, m2: nat, losses: set<nat>,
                 homeDue: seq<int>, rentedDue: seq<int>, day: Day)
    requires Consistent(e0, t0, tb0, n0, m0) && i < |e0| && m0 <= m
    requires TripsAfter(ts, e0, after, t0, i, day) && ReturnsLogged(tb, e0, after, t0, i, day)
    requires after[i] == (e0[i].0, NextState(e0[i].1, e0[i].0 in losses, Requested(e0[i].1, e0[i].0, homeDue, rentedDue, [])))
    requires |ts2| == |ts| && ts2 == ts[i := ts2[i]] && TripAfter(e0[i], after[i], t0[i], ts2[i], day)
    requires after[i] == e0[i] ==> tb2 == tb && m2 == m
    requires e0[i].1 == Home && after[i].1 == Rented ==> tb2 == tb.Put(Trip(m, after[i].0, day, [(Rented, day)])) && m2 == m + 1
    requires e0[i].1 == Rented && after[i].1 != Rented ==> t0[i].Some? && tb2 == tb.Put(Appended(t0[i].value, after[i].1, day)) && m2 == m
    requires LogKept(tb0, tb, e0, after, t0, i)
    ensures TripsAfter(ts2, e0, after, t0, i + 1, day) && ReturnsLogged(tb2, e0, after, t0, i + 1, day)
    ensures LogKept(tb0, tb2, e0, after, t0, i + 1)
    ensures m2 == m + (if e0[i].1 == Home && after[i].1 == Rented then 1 else 0)
  {
    TripsAfterStep(ts, ts2, e0, after, t0, i, day);
    if after[i] == e0[i] {
      ReturnsLoggedQuiet(tb, e0, after, t0, i, day);
      assert forall k :: Untouched(e0, after, t0, i + 1, k) == Untouched(e0, after, t0, i, k);
    } else if e0[i].1 == Home {
      TripIdsBelow(e0, t0, tb0, n0, m0, m);
      ReturnsLoggedStep(tb, Trip(m, e0[i].0, day, [(Rented, day)]), e0, after, t0, i, day);
      assert m !in tb0.trips;
      assert forall k :: Untouched(e0, after, t0, i + 1, k) ==> Untouched(e0, after, t0, i, k);
    } else {
      forall j | 0 <= j < i && t0[j].Some?
        ensures t0[j].value.id != t0[i].value.id
      {
        TripsApart(e0, t0, tb0, n0, m0, j, i);
      }
      ReturnsLoggedStep(tb, Appended(t0[i].value, after[i].1, day), e0, after, t0, i, day);
    }
  }

  /** Appending a crate with a new id, holding a registered trip that fits it. */
  lemma ConsistentAppend(entries: seq<Entry>, trips: seq<Option<Trip>>, t: Table, n: nat, m: nat, e: Entry, trip: Option<Trip>)
    requires Consistent(entries, trips, t, n, m)
    requires DistinctIds(entries + [e]) && IdsBelow(entries + [e], n)
    requires TripFits(e.0, e.1, trip) && t.Holds(trip)
    ensures Consistent(entries + [e], trips + [trip], t, n, m)
  {
    assert forall j :: 0 <= j < |entries| ==> (trips + [trip])[j] == trips[j];
  }

  /** Crate `i` moves to state `s` and holds `trip`, and the registry stores `u`,
      which is either that crate's own trip or one with a new id below `m2`. */
  lemma ConsistentVisit(entries: seq<Entry>, trips: seq<Option<Trip>>, t: Table, n: nat, m: nat,
                        i: nat, s: State, trip: Option<Trip>, u: Trip, m2: nat)
    requires Consistent(entries, trips, t, n, m) && i < |entries| && m <= m2
    requires TripFits(entries[i].0, s, trip) && (trip == None || trip == Some(u))
    requires u.id < m2
    requires u.id in t.trips ==> trips[i].Some? && trips[i].value.id == u.id
    ensures Consistent(entries[i := (entries[i].0, s)], trips[i := trip], t.Put(u), n, m2)
  {
    var es, ts, t2 := entries[i := (entries[i].0, s)], trips[i := trip], t.Put(u);
    forall j | 0 <= j < |es| && j != i
      ensures TripFits(es[j].0, es[j].1, ts[j]) && t2.Holds(ts[j])
    {
      if trips[j].Some? && u.id in t.trips {
        TripsApart(entries, trips, t, n, m, i, j);
      }
    }
    assert forall j :: 0 <= j < |es| ==> es[j].0 == entries[j].0;
  }

  /** Renting out crate `i`, which is at home and in the front bucket `b[0]` of
      the home FIFO, on `day`: taken out of `b[0]` and appended to the rented
      order, with a new trip numbered `m` registered, the pools still hold each
      crate of their state once and the trips stay consistent. */
  lemma RentOutKeeps(entries: seq<Entry>, trips: seq<Option<Trip>>, t: Table, n: nat, m: nat,
                     b: seq<seq<int>>, r: seq<int>, l: seq<int>, i: nat, day: Day)
    requires Consistent(entries, trips, t, n, m) && Tracked(Flatten(b), r, l, entries)
    requires i < |entries| && entries[i].1 == Home && |b| > 0 && entries[i].0 in b[0]
    ensures var x := entries[i].0; var u := Trip(m, x, day, [(Rented, day)]);
      && x !in r
      && Consistent(entries[i := (x, Rented)], trips[i := Some(u)], t.Put(u), n, m + 1)
      && Tracked(Flatten(b[0 := Without(b[0], x)]), r + [x], l, entries[i := (x, Rented)])
  {
    var x := entries[i].0;
    OccOfEntry(entries, i, Home);
    OccOfEntry(entries, i, Rented);
    FlattenWithoutAt(b, 0, x);
    MultIn(r, x);
    MultAppend(r, x);
    TrackedMove(Flatten(b), r, l, Flatten(b[0 := Without(b[0], x)]), r + [x], l, entries, i, Rented);
    var u := Trip(m, x, day, [(Rented, day)]);
    ConsistentVisit(entries, trips, t, n, m, i, Rented, Some(u), u, m + 1);
  }

  /** Recalling rented crate `i` on `day`: taken out of the rented order and
      appended to bucket `d` of the home FIFO, its trip closed with a `home`
      mark, the pools still hold each crate of their state once and the trips
      stay consistent. */
  lemma RecallKeeps(entries: seq<Entry>, trips: seq<Option<Trip>>, t: Table, n: nat, m: nat,
                    b: seq<seq<int>>, d: nat, r: seq<int>, l: seq<int>, i: nat, day: Day)
    requires Consistent(entries, trips, t, n, m) && Tracked(Flatten(b), r, l, entries)
    requires i < |entries| && entries[i].1 == Rented && d < |b|
    ensures trips[i].Some?
    ensures var x := entries[i].0; var u := Appended(trips[i].value, Home, day);
      && x in r
      && Consistent(entries[i := (x, Home)], trips[i := None], t.Put(u), n, m)
      && Tracked(Flatten(b[d := b[d] + [x]]), Without(r, x), l, entries[i := (x, Home)])
  {
    var x := entries[i].0;
    OccOfEntry(entries, i, Rented);
    MultIn(r, x);
    MultWithout(r, x);
    FlattenAppendAt(b, d, x);
    TrackedMove(Flatten(b), r, l, Flatten(b[d := b[d] + [x]]), Without(r, x), l, entries, i, Home);
    var u := Appended(trips[i].value, Home, day);
    ConsistentVisit(entries, trips, t, n, m, i, Home, None, u, m);
  }

  /** Losing rented crate `i` on `day`: taken out of the rented order and
      appended to the lost pool, its trip marked `lost`, the pools still hold
      each crate of their state once and the trips stay consistent. */
  lemma LoseKeeps(entries: seq<Entry>, trips: seq<Option<Trip>>, t: Table, n: nat, m: nat,
                  h: seq<int>, r: seq<int>, l: seq<int>, i: nat, day: Day)
    requires Consistent(entries, trips, t, n, m) && Tracked(h, r, l, entries)
    requires i < |entries| && entries[i].1 == Rented
    ensures trips[i].Some?
    ensures var x := entries[i].0; var u := Appended(trips[i].value, Lost, day);
      && x in r
      && Consistent(entries[i := (x, Lost)], trips[i := Some(u)], t.Put(u), n, m)
      && Tracked(h, Without(r, x), l + [x], entries[i := (x, Lost)])
  {
    var x := entries[i].0;
    OccOfEntry(entries, i, Rented);
    MultIn(r, x);
    MultWithout(r, x);
    MultAppend(l, x);
    TrackedMove(h, r, l, h, Without(r, x), l + [x], entries, i, Lost);
    var u := Appended(trips[i].value, Lost, day);
    ConsistentVisit(entries, trips, t, n, m, i, Lost, Some(u), u, m);
  }

  /** The crate pool: the crates, one selection pool per state (a FIFO with a
      seven-day delay for home, log-normal countdowns for rented, a sink for
      lost), the registry the crates report their trips to, and the date. */
  class CRTPool {
    const registry: Registry
    const crateIds: IdCounter
    const tripIds: IdCounter
    const home: Fifo
    const rented: LogNormal
    const lost: ArrayPool
    const meanTripDuration: real
    const shrinkageRate: real
    const replenishmentRate: real
    var crates: seq<CRT>
    var date: Day
    /** The crates as (id, state) pairs, and the trips they hold. */
    ghost var entries: seq<Entry>
    ghost var trips: seq<Option<Trip>>

    /** Every crate is valid and has its own id; every open trip is the one the
        registry holds under its id; the pool of each state holds exactly the
        crates in that state, once each. */
    ghost predicate Valid()
      reads this`crates, this`entries, this`trips, crates, home, rented, lost, registry, crateIds, tripIds
    {
      && crateIds != tripIds
      && home.Valid() && home.delay == 7
      && rented.Valid()
      && lost.discipline == Sink
      && registry.Valid()
      && Mirrors(crates, entries, trips)
      && Consistent(entries, trips, registry.table, crateIds.value, tripIds.value)
      && Tracked(Flatten(home.buckets), rented.order, lost.pool, entries)
    }

    /** The crates as (id, state) pairs, read off the crates themselves. */
    function Snapshot(): (r: seq<Entry>)
      reads this, crates
      ensures |r| == |crates|
      ensures forall j :: 0 <= j < |crates| ==> r[j] == (crates[j].id, crates[j].state)
    {
      seq(|crates|, j reads this, crates requires 0 <= j < |crates| => (crates[j].id, crates[j].state))
    }

    lemma SnapshotIsEntries()
      requires Valid()
      ensures Snapshot() == entries
    {
    }

    /** The pools hold the crates of their state: an id is in the home FIFO (in
        any bucket), among the rented countdowns or in the lost sink exactly
        when a crate with that id is in that state, and is held there once. */
    lemma PoolsHoldStates(x: int)
      requires Valid()
      ensures x in Flatten(home.buckets) <==> exists j :: 0 <= j < |crates| && crates[j].id == x && crates[j].state == Home
      ensures x in rented.counters <==> exists j :: 0 <= j < |crates| && crates[j].id == x && crates[j].state == Rented
      ensures x in lost.pool <==> exists j :: 0 <= j < |crates| && crates[j].id == x && crates[j].state == Lost
      ensures Mult(Flatten(home.buckets), x) <= 1 && Mult(rented.order, x) <= 1 && Mult(lost.pool, x) <= 1
    {
      CountsMeans(Flatten(home.buckets), entries, Home, x);
      CountsMeans(rented.order, entries, Rented, x);
      CountsMeans(lost.pool, entries, Lost, x);
    }

    /** The census: how many crates are in each state. */
    function Report(): (r: seq<(State, nat)>)
      reads this, crates
      ensures |r| == |States| && r[0].1 + r[1].1 + r[2].1 == |crates|
      ensures forall k :: 0 <= k < |r| ==> r[k].0 == States[k] && r[k].1 == Count(Snapshot(), States[k])
    {
      Census.Report(Snapshot())
    }

    /** `n_crates` new crates, all at home and all entered into the home pool in
        creation order; without a registry a fresh, empty one is made. */
    constructor (nCrates: nat, meanTripDuration: real, dailyLossRate: real, replenishmentRate: real, startDate: Day,
                 registry: Registry?, crateIds: IdCounter, tripIds: IdCounter)
      requires crateIds != tripIds
      requires registry != null ==> registry.Valid() && registry.table.Below(tripIds.value)
      modifies crateIds
      ensures Valid()
      ensures registry != null ==> this.registry == registry
      ensures registry == null ==> fresh(this.registry) && this.registry.table == Table(map[], [])
      ensures this.crateIds == crateIds && this.tripIds == tripIds
      ensures fresh(home) && fresh(rented) && fresh(lost)
      ensures this.meanTripDuration == meanTripDuration && shrinkageRate == dailyLossRate
      ensures this.replenishmentRate == replenishmentRate && date == startDate
      ensures rented.mean == meanTripDuration && rented.std == meanTripDuration / 2.0
      ensures |crates| == nCrates && crateIds.value == old(crateIds.value) + nCrates
      ensures forall j :: 0 <= j < nCrates ==>
        fresh(crates[j]) && crates[j].id == old(crateIds.value) + j && crates[j].state == Home && crates[j].createdAt == None
      ensures forall k :: 0 <= k < home.delay ==> home.buckets[k] == []
      ensures home.buckets[home.delay] == Range(old(crateIds.value), nCrates)
      ensures rented.order == [] && lost.pool == []
    {
      var r: Registry;
      if registry == null {
        r := new Registry();
      } else {
        r := registry;
      }
      this.registry := r;
      this.crateIds := crateIds;
      this.tripIds := tripIds;
      this.meanTripDuration := meanTripDuration;
      shrinkageRate := dailyLossRate;
      this.replenishmentRate := replenishmentRate;
      date := startDate;
      home := new Fifo(7);
      rented := new LogNormal(meanTripDuration, meanTripDuration / 2.0);
      lost := new ArrayPool(Sink);
      crates := [];
      entries := [];
      trips := [];
      new;
      FlattenEmpty(home.buckets);
      ghost var empty := home.buckets[home.delay];
      assert empty == [];
      AddNewCrates(nCrates, None);
      assert home.buckets[home.delay] == empty + Range(old(crateIds.value), nCrates);
    }

    /** `self.state_pools[s].ingress(idx)`; the rented pool starts the countdown at `steps`. */
    method IngressInto(s: State, idx: nat, steps: real)
      requires home.Valid() && rented.Valid()
      requires s == Rented ==> idx !in rented.counters
      modifies home, rented, lost
      ensures home.Valid() && rented.Valid()
      ensures home.buckets == if s == Home then old(home.buckets)[home.delay := old(home.buckets)[home.delay] + [idx]] else old(home.buckets)
      ensures rented.counters == if s == Rented then old(rented.counters)[idx := steps] else old(rented.counters)
      ensures rented.order == if s == Rented then old(rented.order) + [idx] else old(rented.order)
      ensures lost.pool == if s == Lost then old(lost.pool) + [idx] else old(lost.pool)
      ensures forall y :: Mult(Flatten(home.buckets), y) == Mult(Flatten(old(home.buckets)), y) + Hit((idx, s), Home, y)
      ensures forall y :: Mult(rented.order, y) == Mult(old(rented.order), y) + Hit((idx, s), Rented, y)
      ensures forall y :: Mult(lost.pool, y) == Mult(old(lost.pool), y) + Hit((idx, s), Lost, y)
    {
      match s
      case Home =>
        FlattenAppendAt(home.buckets, home.delay, idx);
        home.Ingress(idx);
      case Rented =>
        MultAppend(rented.order, idx);
        rented.Ingress(idx, steps);
      case Lost =>
        MultAppend(lost.pool, idx);
        lost.Ingress(idx);
    }

    /** `self.add_crt(crt)`: enter the crate into the pool of its state and append it. */
    method AddCrt(crt: CRT, steps: real)
      requires Valid() && crt.Valid() && crt.id < crateIds.value
      requires forall j :: 0 <= j < |crates| ==> crates[j].id != crt.id
      requires registry.table.Holds(crt.trip)
      modifies this, home, rented, lost
      ensures Valid()
      ensures crates == old(crates) + [crt] && date == old(date)
      ensures entries == old(entries) + [(crt.id, crt.state)] && trips == old(trips) + [crt.trip]
      ensures home.buckets == if crt.state == Home then old(home.buckets)[home.delay := old(home.buckets)[home.delay] + [crt.id]] else old(home.buckets)
      ensures rented.counters == if crt.state == Rented then old(rented.counters)[crt.id := steps] else old(rented.counters)
      ensures rented.order == if crt.state == Rented then old(rented.order) + [crt.id] else old(rented.order)
      ensures lost.pool == if crt.state == Lost then old(lost.pool) + [crt.id] else old(lost.pool)
    {
      var e := (crt.id, crt.state);
      ghost var h, r, l := Flatten(home.buckets), rented.order, lost.pool;
      AppendKeeps(entries, e, crateIds.value);
      MultIn(r, crt.id);
      ConsistentAppend(entries, trips, registry.table, crateIds.value, tripIds.value, e, crt.trip);
      IngressInto(crt.state, crt.id, steps);
      TrackedAppend(h, r, l, Flatten(home.buckets), rented.order, lost.pool, entries, e);
      Append(crt);
    }

    /** Append a crate whose pool and trip are already in order. */
    method Append(crt: CRT)
      requires crateIds != tripIds && home.Valid() && home.delay == 7 && rented.Valid()
      requires lost.discipline == Sink && registry.Valid()
      requires Mirrors(crates, entries, trips) && crt.Valid()
      requires Consistent(entries + [(crt.id, crt.state)], trips + [crt.trip], registry.table, crateIds.value, tripIds.value)
      requires Tracked(Flatten(home.buckets), rented.order, lost.pool, entries + [(crt.id, crt.state)])
      modifies this
      ensures Valid() && date == old(date)
      ensures crates == old(crates) + [crt] && entries == old(entries) + [(crt.id, crt.state)]
      ensures trips == old(trips) + [crt.trip]
    {
      crates, entries, trips := crates + [crt], entries + [(crt.id, crt.state)], trips + [crt.trip];
    }

    /** `crt = CRT(created_at, reporting_callback=self.registry.register)`
        followed by `self.add_crt(crt)`. */
    method AddNewCrate(createdAt: Option<Day>) returns (crt: CRT)
      requires Valid()
      modifies this, home, rented, lost, crateIds
      ensures Valid() && date == old(date) && registry.table == old(registry.table)
      ensures fresh(crt) && crt.id == old(crateIds.value) && crt.state == Home && crt.createdAt == createdAt
      ensures crateIds.value == old(crateIds.value) + 1
      ensures crates == old(crates) + [crt] && entries == old(entries) + [(crt.id, Home)] && trips == old(trips) + [None]
      ensures home.buckets == old(home.buckets)[home.delay := old(home.buckets)[home.delay] + [crt.id]]
      ensures rented.order == old(rented.order) && rented.counters == old(rented.counters) && lost.pool == old(lost.pool)
    {
      crt := new CRT(createdAt, crateIds);
      IdsBelowGrow(entries, crt.id, crateIds.value);
      AddCrt(crt, 0.0);
    }

    /** The end of a day: `n` new crates made today join the pool, then the
        date moves on. */
    method Restock(n: nat)
      requires Valid()
      modifies this, home, rented, lost, crateIds
      ensures Valid() && date == old(date) + 1 && registry.table == old(registry.table)
      ensures crateIds.value == old(crateIds.value) + n
      ensures |crates| == |old(crates)| + n && crates[..|old(crates)|] == old(crates)
      ensures entries[..|old(crates)|] == old(entries) && trips[..|old(crates)|] == old(trips)
      ensures Newcomers(entries, |old(crates)|, old(crateIds.value))
      ensures forall j :: |old(crates)| <= j < |crates| ==> fresh(crates[j]) && crates[j].createdAt == Some(old(date))
      ensures home.buckets == old(home.buckets)[home.delay := old(home.buckets)[home.delay] + Range(old(crateIds.value), n)]
      ensures rented.order == old(rented.order) && rented.counters == old(rented.counters) && lost.pool == old(lost.pool)
    {
      AddNewCrates(n, Some(date));
      date := date + 1;
    }

    /** `n` times: create a crate with creation day `createdAt`, taking the next
        crate id, and add it to the pool. */
    method AddNewCrates(n: nat, createdAt: Option<Day>)
      requires Valid()
      modifies this, home, rented, lost, crateIds
      ensures Valid() && date == old(date) && registry.table == old(registry.table)
      ensures crateIds.value == old(crateIds.value) + n
      ensures |crates| == |old(crates)| + n && crates[..|old(crates)|] == old(crates)
      ensures entries[..|old(crates)|] == old(entries) && trips[..|old(crates)|] == old(trips)
      ensures forall j :: |old(crates)| <= j < |crates| ==>
        fresh(crates[j]) && entries[j] == (old(crateIds.value) + j - |old(crates)|, Home) && crates[j].createdAt == createdAt
      ensures home.buckets == old(home.buckets)[home.delay := old(home.buckets)[home.delay] + Range(old(crateIds.value), n)]
      ensures rented.order == old(rented.order) && rented.counters == old(rented.counters) && lost.pool == old(lost.pool)
    {
      ghost var m := |crates|;
      ghost var b := home.buckets;
      assert b[home.delay] + Range(crateIds.value, 0) == b[home.delay];
      for i := 0 to n
        invariant Valid() && date == old(date) && registry.table == old(registry.table)
        invariant crateIds.value == old(crateIds.value) + i
        invariant |crates| == m + i && crates[..m] == old(crates) && entries[..m] == old(entries) && trips[..m] == old(trips)
        invariant forall j :: m <= j < m + i ==>
          fresh(crates[j]) && entries[j] == (old(crateIds.value) + j - m, Home) && crates[j].createdAt == createdAt
        invariant home.buckets == b[home.delay := b[home.delay] + Range(old(crateIds.value), i)]
        invariant rented.order == old(rented.order) && rented.counters == old(rented.counters) && lost.pool == old(lost.pool)
      {
        ghost var before := home.buckets;
        var crt := AddNewCrate(createdAt);
        assert Range(old(crateIds.value), i + 1) == Range(old(crateIds.value), i) + [crt.id];
        assert b[home.delay] + Range(old(crateIds.value), i + 1) == before[home.delay] + [crt.id];
      }
    }

    /** The crates other than crate `i` are other objects, since their ids differ. */
    lemma OthersApart(i: nat)
      requires Valid() && i < |crates|
      ensures forall j :: 0 <= j < |crates| && j != i ==> crates[j] != crates[i]
    {
      forall j | 0 <= j < |crates| && j != i
        ensures crates[j].id != crates[i].id
      {
        assert entries[j].0 != entries[i].0;
      }
    }

    /** The object updates of renting out `crt`: `home.egress`, `crt.next`,
        the registry callback on the new trip, and `rented.ingress`. */
    method RentSteps(crt: CRT, steps: real)
      requires crt.Valid() && crt.state == Home && home.Valid() && rented.Valid() && registry.Valid()
      requires crt.id in home.buckets[0] && crt.id !in rented.counters
      modifies crt, home, rented, registry, tripIds
      ensures home.Valid() && rented.Valid() && registry.Valid()
      ensures crt.state == Rented && crt.trip == Some(Trip(old(tripIds.value), crt.id, date, [(Rented, date)]))
      ensures tripIds.value == old(tripIds.value) + 1
      ensures home.buckets == old(home.buckets)[0 := Without(old(home.buckets)[0], crt.id)]
      ensures rented.order == old(rented.order) + [crt.id] && rented.counters == old(rented.counters)[crt.id := steps]
      ensures registry.table == old(registry.table).Put(crt.trip.value)
    {
      home.Egress(crt.id);
      var reported := crt.Next(date, tripIds);
      registry.Register(reported.value);
      rented.Ingress(crt.id, steps);
    }

    /** The object updates of recalling `crt`: `rented.egress`, `crt.next`,
        the registry callback on the closed trip, and `home.ingress`. */
    method RecallSteps(crt: CRT)
      requires crt.Valid() && crt.state == Rented && home.Valid() && rented.Valid() && registry.Valid()
      requires crt.id in rented.counters
      modifies crt, home, rented, registry, tripIds
      ensures home.Valid() && rented.Valid() && registry.Valid() && tripIds.value == old(tripIds.value)
      ensures crt.state == Home && crt.trip == None
      ensures home.buckets == old(home.buckets)[home.delay := old(home.buckets)[home.delay] + [crt.id]]
      ensures rented.order == Without(old(rented.order), crt.id) && rented.counters == old(rented.counters) - {crt.id}
      ensures registry.table == old(registry.table).Put(Appended(old(crt.trip).value, Home, date))
    {
      rented.Egress(crt.id);
      var reported := crt.Next(date, tripIds);
      registry.Register(reported.value);
      home.Ingress(crt.id);
    }

    /** The object updates of losing `crt`: `rented.remove`, `crt.lose`, the
        registry seeing the extended trip it shares, and `lost.ingress`. */
    method LoseSteps(crt: CRT)
      requires crt.Valid() && crt.state == Rented && rented.Valid() && registry.Valid()
      requires crt.id in rented.counters
      modifies crt, rented, lost, registry
      ensures rented.Valid() && registry.Valid()
      ensures crt.state == Lost && crt.trip == Some(Appended(old(crt.trip).value, Lost, date))
      ensures rented.order == Without(old(rented.order), crt.id) && rented.counters == old(rented.counters) - {crt.id}
      ensures lost.pool == old(lost.pool) + [crt.id]
      ensures registry.table == old(registry.table).Put(crt.trip.value)
    {
      rented.Remove(crt.id);
      crt.Lose(date);
      registry.Register(crt.trip.value);
      lost.Ingress(crt.id);
    }

    /** Record entry `e` and trip `t` for crate `i`, once the crate, its pools
        and the registry are in order. */
    method Revise(i: nat, e: Entry, t: Option<Trip>)
      requires i < |entries| && i < |trips|
      requires crateIds != tripIds && home.Valid() && home.delay == 7 && rented.Valid()
      requires lost.discipline == Sink && registry.Valid()
      requires Mirrors(crates, entries[i := e], trips[i := t])
      requires Consistent(entries[i := e], trips[i := t], registry.table, crateIds.value, tripIds.value)
      requires Tracked(Flatten(home.buckets), rented.order, lost.pool, entries[i := e])
      modifies this`entries, this`trips
      ensures Valid() && entries == old(entries)[i := e] && trips == old(trips)[i := t]
    {
      entries, trips := entries[i := e], trips[i := t];
    }

    /** A due crate at home goes out: it leaves the home FIFO, opens and
        registers a new trip, and starts its countdown in the rented pool. */
    method RentOut(i: nat, steps: real)
      requires Valid() && i < |crates| && entries[i].1 == Home && entries[i].0 in home.buckets[0]
      modifies this, crates[i], home, rented, registry, tripIds
      ensures Valid() && crates == old(crates) && date == old(date)
      ensures entries == old(entries)[i := (old(entries)[i].0, Rented)]
      ensures home.buckets == old(home.buckets)[0 := Without(old(home.buckets)[0], crates[i].id)]
      ensures rented.order == old(rented.order) + [crates[i].id] && rented.counters == old(rented.counters)[crates[i].id := steps]
      ensures lost.pool == old(lost.pool)
      ensures crates[i].trip == Some(Trip(old(tripIds.value), crates[i].id, date, [(Rented, date)]))
      ensures trips == old(trips)[i := crates[i].trip] && tripIds.value == old(tripIds.value) + 1
      ensures registry.table == old(registry.table).Put(crates[i].trip.value)
    {
      var crt := crates[i];
      var x := crt.id;
      OthersApart(i);
      RentOutKeeps(entries, trips, registry.table, crateIds.value, tripIds.value,
                   home.buckets, rented.order, lost.pool, i, date);
      RentSteps(crt, steps);
      Revise(i, (x, Rented), crt.trip);
    }

    /** A due rented crate comes home: it leaves the rented pool, closes and
        registers its trip, and enters the home FIFO at the back. */
    method Recall(i: nat)
      requires Valid() && i < |crates| && entries[i].1 == Rented
      modifies this, crates[i], home, rented, registry, tripIds
      ensures Valid() && crates == old(crates) && date == old(date)
      ensures entries == old(entries)[i := (old(entries)[i].0, Home)]
      ensures home.buckets == old(home.buckets)[home.delay := old(home.buckets)[home.delay] + [crates[i].id]]
      ensures rented.order == Without(old(rented.order), crates[i].id) && rented.counters == old(rented.counters) - {crates[i].id}
      ensures lost.pool == old(lost.pool)
      ensures crates[i].trip == None
      ensures trips == old(trips)[i := None] && tripIds.value == old(tripIds.value)
      ensures registry.table == old(registry.table).Put(Appended(old(crates[i].trip).value, Home, date))
    {
      var crt := crates[i];
      var x := crt.id;
      OthersApart(i);
      RecallKeeps(entries, trips, registry.table, crateIds.value, tripIds.value,
                  home.buckets, home.delay, rented.order, lost.pool, i, date);
      RecallSteps(crt);
      Revise(i, (x, Home), None);
    }

    /** A rented crate whose loss coin came up is lost: it is removed from the
        rented pool, its trip gains a `lost` entry, which the registry sees as
        it holds the same trip, and it enters the lost sink. */
    method LoseCrate(i: nat)
      requires Valid() && i < |crates| && entries[i].1 == Rented
      modifies this, crates[i], rented, lost, registry
      ensures Valid() && crates == old(crates) && date == old(date)
      ensures entries == old(entries)[i := (old(entries)[i].0, Lost)]
      ensures home.buckets == old(home.buckets)
      ensures rented.order == Without(old(rented.order), crates[i].id) && rented.counters == old(rented.counters) - {crates[i].id}
      ensures lost.pool == old(lost.pool) + [crates[i].id]
      ensures crates[i].trip == Some(Appended(old(crates[i].trip).value, Lost, date))
      ensures trips == old(trips)[i := crates[i].trip]
      ensures registry.table == old(registry.table).Put(crates[i].trip.value)
    {
      var crt := crates[i];
      var x := crt.id;
      OthersApart(i);
      LoseKeeps(entries, trips, registry.table, crateIds.value, tripIds.value,
                Flatten(home.buckets), rented.order, lost.pool, i, date);
      LoseSteps(crt);
      Revise(i, (x, Lost), crt.trip);
    }

    /** One iteration of the `proceed` loop for crate `i`: a rented crate whose
        loss coin (`losses`) came up is lost; otherwise a crate drawn from the
        pool of its state moves on; otherwise nothing happens. A crate rented
        out gets the countdown `steps` gives its id. The lost pool is a sink,
        so no lost crate is ever drawn. */
    method Visit(i: nat, homeDue: seq<int>, rentedDue: seq<int>, losses: set<nat>, steps: nat -> real)
      requires Valid() && i < |crates|
      requires entries[i].1 == Home && entries[i].0 in homeDue ==> entries[i].0 in home.buckets[0]
      modifies this, crates[i], home, rented, lost, registry, tripIds
      ensures Valid() && crates == old(crates) && date == old(date)
      ensures var (x, s) := old(entries)[i];
        entries == old(entries)[i := (x, NextState(s, x in losses, Requested(s, x, homeDue, rentedDue, [])))]
      ensures forall y :: y in old(home.buckets)[0] && y != old(entries)[i].0 ==> y in home.buckets[0]
      ensures trips == old(trips)[i := trips[i]] && old(tripIds.value) <= tripIds.value
      ensures TripAfter(old(entries)[i], entries[i], old(trips)[i], trips[i], date)
      ensures entries[i] == old(entries)[i] ==>
        && registry.table == old(registry.table) && tripIds.value == old(tripIds.value)
        && home.buckets == old(home.buckets) && rented.order == old(rented.order)
        && rented.counters == old(rented.counters) && lost.pool == old(lost.pool)
      ensures old(entries)[i].1 == Home && entries[i].1 == Rented ==>
        && tripIds.value == old(tripIds.value) + 1
        && registry.table == old(registry.table).Put(Trip(old(tripIds.value), entries[i].0, date, [(Rented, date)]))
        && home.buckets == old(home.buckets)[0 := Without(old(home.buckets)[0], entries[i].0)]
        && rented.order == old(rented.order) + [entries[i].0]
        && rented.counters == old(rented.counters)[entries[i].0 := steps(entries[i].0)]
        && lost.pool == old(lost.pool)
      ensures old(entries)[i].1 == Rented && entries[i].1 != Rented ==>
        && old(trips)[i].Some? && tripIds.value == old(tripIds.value)
        && registry.table == old(registry.table).Put(Appended(old(trips)[i].value, entries[i].1, date))
        && rented.order == Without(old(rented.order), entries[i].0)
        && rented.counters == old(rented.counters) - {entries[i].0}
      ensures old(entries)[i].1 == Rented && entries[i].1 == Home ==>
        && home.buckets == old(home.buckets)[home.delay := old(home.buckets)[home.delay] + [entries[i].0]]
        && lost.pool == old(lost.pool)
      ensures old(entries)[i].1 == Rented && entries[i].1 == Lost ==>
        home.buckets == old(home.buckets) && lost.pool == old(lost.pool) + [entries[i].0]
    {
      var crt := crates[i];
      if crt.state == Rented && crt.id in losses {
        LoseCrate(i);
      } else if crt.state == Home && crt.id in homeDue {
        RentOut(i, steps(crt.id));
      } else if crt.state == Rented && crt.id in rentedDue {
        Recall(i);
      }
    }

    /** The `requests` of `proceed`: every pool draws `demand`, in the order
        home, rented, lost. The FIFO ages, the countdowns go down, and the
        sink returns nothing. */
    method DrawAll(demand: nat) returns (homeDue: seq<int>, rentedDue: seq<int>, lostDue: seq<int>)
      requires Valid()
      modifies home, rented
      ensures Valid()
      ensures homeDue == First(old(home.buckets)[0], demand) && home.buckets == Shifted(old(home.buckets))
      ensures rentedDue == DueIn(old(rented.order), old(rented.counters))
      ensures rented.order == old(rented.order) && rented.counters == Decremented(old(rented.counters))
      ensures lostDue == []
      ensures forall x :: x in homeDue ==> x in home.buckets[0]
    {
      ShiftedKeepsMembers(home.buckets);
      homeDue := home.Draw(demand);
      rentedDue := rented.Draw(demand);
      lostDue := lost.Draw(demand);
    }

    /** The pass that takes `e0` to `after` has visited the crates before `i`:
        those crates are in their `after` state and hold the trips `TripAfter`
        gives them, the ones that came home have their closed trips registered,
        and every unvisited crate due to leave home is still in the front
        bucket. `quiet` says that no crate has moved yet, and then the registry
        and the pools still hold their values `tb0`, `b0`, `r0`, `c0`, `l0` from
        the start of the pass. */
    ghost predicate Passing(i: nat, homeDue: seq<int>, e0: seq<Entry>, after: seq<Entry>, t0: seq<Option<Trip>>, m0: nat,
                            quiet: bool, tb0: Table, b0: seq<seq<int>>, r0: seq<int>, c0: map<int, real>, l0: seq<int>)
      reads this`entries, this`trips, this`date, home, rented, lost, registry, tripIds
    {
      && (quiet <==> Quiet(after, e0, i))
      && (quiet ==>
           registry.table == tb0 && home.buckets == b0 && rented.order == r0 && rented.counters == c0 && lost.pool == l0)
      && Visited(entries, after, e0, i)
      && |home.buckets| > 0
      && (forall j :: i <= j < |e0| && e0[j].1 == Home && e0[j].0 in homeDue ==> e0[j].0 in home.buckets[0])
      && tripIds.value == m0 + RentedOut(e0, after, i)
      && TripsAfter(trips, e0, after, t0, i, date) && ReturnsLogged(registry.table, e0, after, t0, i, date)
      && LogKept(tb0, registry.table, e0, after, t0, i)
    }

    /** `Visit` of crate `i` within the pass that takes `e0` to `after`, where
        `t0`, `tb0`, `n0` and `m0` are the trips, registry and counters at the
        start of the pass: the pass, its trips and its logged returns advance
        by one crate, and a crate that does not move changes no pool. */
    method VisitLogged(i: nat, homeDue: seq<int>, rentedDue: seq<int>, losses: set<nat>, steps: nat -> real,
                       ghost e0: seq<Entry>, ghost after: seq<Entry>, ghost t0: seq<Option<Trip>>,
                       ghost tb0: Table, ghost n0: nat, ghost m0: nat, ghost quiet: bool,
                       ghost b0: seq<seq<int>>, ghost r0: seq<int>, ghost c0: map<int, real>, ghost l0: seq<int>)
      requires Valid() && i < |crates| && i < |e0| && Passing(i, homeDue, e0, after, t0, m0, quiet, tb0, b0, r0, c0, l0)
      requires after[i] == (e0[i].0, NextState(e0[i].1, e0[i].0 in losses, Requested(e0[i].1, e0[i].0, homeDue, rentedDue, [])))
      requires Consistent(e0, t0, tb0, n0, m0)
      modifies this, crates[i], home, rented, lost, registry, tripIds
      ensures Valid() && crates == old(crates) && date == old(date)
      ensures Passing(i + 1, homeDue, e0, after, t0, m0, quiet && after[i] == e0[i], tb0, b0, r0, c0, l0)
    {
      assert forall j :: i < j < |e0| ==> e0[j].0 != e0[i].0;
      VisitedStep(entries, after, e0, i);
      ghost var tb, m, ts, es := registry.table, tripIds.value, trips, entries;
      assert ts[i] == t0[i] && es[i] == e0[i];
      Visit(i, homeDue, rentedDue, losses, steps);
      LogVisit(e0, after, t0, tb0, n0, m0, i, ts, trips, tb, registry.table, m, tripIds.value, losses, homeDue, rentedDue, date);
    }

    /** The `for crt in self.pool` loop of `proceed`: every crate is visited
        once, in pool order, and ends in the state `Step` gives it. A crate that
        moved holds the trip `TripAfter` says, and one that came home has its
        closed trip registered; on a day when no crate moves, the registry and
        the pools are as they were. */
    method VisitAll(homeDue: seq<int>, rentedDue: seq<int>, losses: set<nat>, steps: nat -> real)
      requires Valid()
      requires forall x :: x in homeDue ==> x in home.buckets[0]
      modifies this, crates, home, rented, lost, registry, tripIds
      ensures Valid() && crates == old(crates) && date == old(date)
      ensures entries == Step(old(entries), losses, homeDue, rentedDue, [])
      ensures DayTrips(old(entries), entries, old(trips), trips, registry.table, date)
      ensures LogKept(old(registry.table), registry.table, old(entries), entries, old(trips), |old(entries)|)
      ensures tripIds.value == old(tripIds.value) + RentedOut(old(entries), entries, |old(entries)|)
      ensures entries == old(entries) ==>
        && registry.table == old(registry.table)
        && home.buckets == old(home.buckets) && rented.order == old(rented.order)
        && rented.counters == old(rented.counters) && lost.pool == old(lost.pool)
    {
      ghost var e0, t0, tb0, n0, m0 := entries, trips, registry.table, crateIds.value, tripIds.value;
      ghost var b0, r0, c0, l0 := home.buckets, rented.order, rented.counters, lost.pool;
      ghost var after := Step(e0, losses, homeDue, rentedDue, []);
      ghost var quiet := true;
      for i := 0 to |crates|
        invariant Valid() && crates == old(crates) && date == old(date)
        invariant Passing(i, homeDue, e0, after, t0, m0, quiet, tb0, b0, r0, c0, l0)
      {
        VisitLogged(i, homeDue, rentedDue, losses, steps, e0, after, t0, tb0, n0, m0, quiet, b0, r0, c0, l0);
        quiet := quiet && after[i] == e0[i];
      }
      VisitedAll(entries, after, e0);
      KeptDone(tb0, registry.table, e0, after, entries, t0, |crates|);
      PassDone(trips, e0, after, t0, registry.table, date);
      if after == e0 {
        QuietAll(after, e0);
      }
    }

    /** The first part of `proceed`: the `requests` from every pool and the
        loop over the crates. Every crate ends in its `Step` state, holds the
        trip `TripAfter` gives it, and one that came home has its closed trip
        registered; on a day when no crate moves, the registry and the rented
        and lost pools are as they were, and the home FIFO has aged one step. */
    method MoveCrates(demand: nat, losses: set<nat>, steps: nat -> real)
      requires Valid()
      modifies this, crates, home, rented, lost, registry, tripIds
      ensures Valid() && crates == old(crates) && date == old(date) && crateIds.value == old(crateIds.value)
      ensures entries == Step(old(entries), losses, First(old(home.buckets)[0], demand),
                              DueIn(old(rented.order), old(rented.counters)), [])
      ensures DayTrips(old(entries), entries, old(trips), trips, registry.table, date)
      ensures LogKept(old(registry.table), registry.table, old(entries), entries, old(trips), |old(entries)|)
      ensures tripIds.value == old(tripIds.value) + RentedOut(old(entries), entries, |old(entries)|)
      ensures entries == old(entries) ==>
        && registry.table == old(registry.table)
        && home.buckets == Shifted(old(home.buckets))
        && rented.order == old(rented.order) && rented.counters == Decremented(old(rented.counters))
        && lost.pool == old(lost.pool)
    {
      var homeDue, rentedDue, lostDue := DrawAll(demand);
      VisitAll(homeDue, rentedDue, losses, steps);
    }

    /** `proceed(demand)`: draw from every pool, visit every crate, add the
        `n` new crates of the replenishment draw, created today, move to the
        next day and report the census. The loss coins are `losses` (the ids
        whose coin came up) and the countdown of a crate rented out today is
        `steps` of its id. */
    method Proceed(demand: nat, losses: set<nat>, steps: nat -> real, n: nat) returns (census: seq<(State, nat)>)
      requires Valid()
      modifies this, crates, home, rented, lost, registry, tripIds, crateIds
      ensures Valid() && date == old(date) + 1
      ensures |crates| == |old(crates)| + n && crates[..|old(crates)|] == old(crates)
      ensures entries[..|old(crates)|] == Step(old(entries), losses, First(old(home.buckets)[0], demand),
                                                 DueIn(old(rented.order), old(rented.counters)), [])
      ensures Newcomers(entries, |old(crates)|, old(crateIds.value))
      ensures forall j :: |old(crates)| <= j < |crates| ==> fresh(crates[j]) && crates[j].createdAt == Some(old(date))
      ensures DayTrips(old(entries), entries[..|old(crates)|], old(trips), trips[..|old(crates)|], registry.table, old(date))
      ensures LogKept(old(registry.table), registry.table, old(entries), entries[..|old(crates)|], old(trips), |old(entries)|)
      ensures tripIds.value == old(tripIds.value) + RentedOut(old(entries), entries[..|old(crates)|], |old(entries)|)
      ensures crateIds.value == old(crateIds.value) + n
      ensures entries[..|old(crates)|] == old(entries) ==>
        && registry.table == old(registry.table)
        && home.buckets == Shifted(old(home.buckets))[home.delay := Shifted(old(home.buckets))[home.delay] + Range(old(crateIds.value), n)]
        && rented.order == old(rented.order) && rented.counters == Decremented(old(rented.counters))
        && lost.pool == old(lost.pool)
      ensures census == Census.Report(entries)
    {
      ghost var k0 := crateIds.value;
      MoveCrates(demand, losses, steps);
      ghost var after := entries;
      Restock(n);
      assert Newcomers(entries, |after|, k0);
      census := Report();
      SnapshotIsEntries();
    }
  }
}
