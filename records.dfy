/** Trip records, per-kind auto-increment ids and the trip registry. */
module Records {
  import opened Common

  /** The auto-increment counter of one entity kind: the class-level `_id_counter`,
      shared by every instance of that kind and independent of every other kind. */
  class IdCounter {
    var value: nat

    /** A kind's counter starts at 1. */
    constructor ()
      ensures value == 1
    {
      value := 1;
    }

    /** Hand out the current value and step the counter, as `__post_init__` does. */
    method Take() returns (id: nat)
      modifies this
      ensures id == old(value) && value == old(value) + 1
    {
      id := value;
      value := value + 1;
    }
  }

  /** A trip: the crate it belongs to, its creation day and the (label, day)
      entries appended as the crate changes state. */
  datatype Trip = Trip(id: nat, crtId: nat, createdAt: Day, states: seq<(State, Day)>)

  /** Constructing a `Trip`: the given fields, then the next id of the Trip kind. */
  method NewTrip(ids: IdCounter, crtId: nat, createdAt: Day, states: seq<(State, Day)>) returns (t: Trip)
    modifies ids
    ensures t == Trip(old(ids.value), crtId, createdAt, states)
    ensures ids.value == old(ids.value) + 1
  {
    var id := ids.Take();
    t := Trip(id, crtId, createdAt, states);
  }

  /** Two trips constructed one after the other get strictly increasing ids. */
  method TwoTrips(ids: IdCounter, crtId: nat, day: Day) returns (first: Trip, second: Trip)
    modifies ids
    ensures first.id < second.id && second.id == first.id + 1
    ensures ids.value == second.id + 1
  {
    first := NewTrip(ids, crtId, day, [(Rented, day)]);
    second := NewTrip(ids, crtId, day, [(Rented, day)]);
  }

  /** How many of the first `i` entries of `order` are `b`. */
  function CountBefore(order: seq<bool>, i: nat, b: bool): (r: nat)
    requires i <= |order|
    ensures r <= i
  {
    if i == 0 then 0 else CountBefore(order, i - 1, b) + (if order[i - 1] == b then 1 else 0)
  }

  /** Two kinds with their own counters, instances made in the order `order`
      (`true` for an instance of the first kind, `false` for the second): each
      instance's id is one more than the number of instances of its own kind
      made before it, however the two kinds interleave. */
  method IndependentCounters(order: seq<bool>) returns (ids: seq<nat>)
    ensures |ids| == |order|
    ensures forall i {:trigger ids[i]} :: 0 <= i < |order| ==> ids[i] == CountBefore(order, i, order[i]) + 1
  {
    var kindA := new IdCounter();
    var kindB := new IdCounter();
    ids := [];
    for i := 0 to |order|
      invariant |ids| == i
      invariant kindA.value == CountBefore(order, i, true) + 1
      invariant kindB.value == CountBefore(order, i, false) + 1
      invariant forall j {:trigger ids[j]} :: 0 <= j < i ==> ids[j] == CountBefore(order, j, order[j]) + 1
    {
      var id;
      if order[i] {
        id := kindA.Take();
      } else {
        id := kindB.Take();
      }
      ids := ids + [id];
    }
  }

  /** A later instance of the same kind has seen more instances of its kind
      before it, so it gets a larger id. */
  lemma {:induction false} CountBeforeGrows(order: seq<bool>, i: nat, j: nat)
    requires i < j <= |order|
    ensures CountBefore(order, i, order[i]) < CountBefore(order, j, order[i])
    decreases j
  {
    if j > i + 1 {
      CountBeforeGrows(order, i, j - 1);
    }
  }

  /** One row of the registry dump. A missing end is `None`. */
  datatype Row = Row(tripId: nat, crtId: nat, start: Day, end: Option<Day>, state: State)

  /** The dump row of trip `t` registered under key `k`; `None` when the trip has
      no entries, where the dump fails on `states[0]`. */
  function Summary(k: nat, t: Trip): (r: Option<Row>)
    ensures r.Some? <==> |t.states| > 0
    ensures r.Some? ==> r.value.tripId == k && r.value.crtId == t.crtId
    ensures r.Some? ==> r.value.start == t.states[0].1
    ensures r.Some? ==> r.value.state == t.states[|t.states| - 1].0
    ensures r.Some? ==> (r.value.end.Some? <==> t.states[|t.states| - 1].0 == Home)
    ensures r.Some? && r.value.end.Some? ==> r.value.end.value == t.states[|t.states| - 1].1
  {
    if |t.states| == 0 then None
    else
      var last := t.states[|t.states| - 1];
      Some(Row(k, t.crtId, t.states[0].1, if last.0 == Home then Some(last.1) else None, last.0))
  }

  /** A trip that went out on `out` and came home on `back` is summarised as
      started on `out`, ended on `back`, state home. */
  lemma CompletedTripSummary(t: Trip, out: Day, back: Day)
    requires t.states == [(Rented, out), (Home, back)]
    ensures Summary(t.id, t) == Some(Row(t.id, t.crtId, out, Some(back), Home))
  {
  }

  /** A trip that is still out, or ended in a loss, has no end date. */
  lemma OpenOrLostTripSummary(t: Trip, out: Day, lossDay: Day)
    requires t.states == [(Rented, out)] || t.states == [(Rented, out), (Lost, lossDay)]
    ensures Summary(t.id, t).Some? && Summary(t.id, t).value.start == out
    ensures Summary(t.id, t).value.end == None
    ensures Summary(t.id, t).value.state == t.states[|t.states| - 1].0
  {
  }

  /** The registry's dictionary: trips by id, and the ids in first-insertion
      order, which is the order a Python dict iterates in. */
  datatype Table = Table(trips: map<nat, Trip>, order: seq<nat>) {

    ghost predicate Valid()
    {
      && (forall k :: k in trips <==> k in order)
      && (forall i, j :: 0 <= i < j < |order| ==> order[i] != order[j])
    }

    /** Every registered id is below `n`. */
    ghost predicate Below(n: nat)
    {
      forall k :: k in trips ==> k < n
    }

    /** `trip`, when there is one, is the trip registered under its id. */
    ghost predicate Holds(trip: Option<Trip>)
    {
      trip.Some? ==> trip.value.id in trips && trips[trip.value.id] == trip.value
    }

    /** `registry[trip.id] = trip`: a new key goes last, an existing key keeps its place. */
    function Put(t: Trip): (r: Table)
      ensures Valid() ==> r.Valid()
      ensures t.id in r.trips && r.trips[t.id] == t
      ensures forall k :: k != t.id ==> (k in r.trips <==> k in trips)
      ensures forall k :: k != t.id && k in trips ==> r.trips[k] == trips[k]
      ensures t.id in trips ==> r.order == order
      ensures t.id !in trips ==> r.order == order + [t.id]
    {
      Table(trips[t.id := t], if t.id in trips then order else order + [t.id])
    }

    /** `registry[k]`; `None` where Python raises `KeyError`. */
    function Get(k: nat): (r: Option<Trip>)
      ensures r.Some? <==> k in trips
      ensures r.Some? ==> r.value == trips[k]
    {
      if k in trips then Some(trips[k]) else None
    }

    /** The rows for `keys`, in order; `None` if one of those trips has no entries. */
    function Rows(keys: seq<nat>): (r: Option<seq<Row>>)
      requires forall k :: k in keys ==> k in trips
      ensures r.Some? <==> forall i :: 0 <= i < |keys| ==> |trips[keys[i]].states| > 0
      ensures r.Some? ==> |r.value| == |keys|
      ensures r.Some? ==> forall i :: 0 <= i < |keys| ==> Summary(keys[i], trips[keys[i]]) == Some(r.value[i])
    {
      if keys == [] then Some([])
      else
        match Summary(keys[0], trips[keys[0]])
        case None => None
        case Some(row) =>
          match Rows(keys[1..])
          case None => None
          case Some(rest) => Some([row] + rest)
    }

    /** The dump: one row per registered trip, in registration order. */
    function Dump(): (r: Option<seq<Row>>)
      requires Valid()
      ensures r.Some? ==> |r.value| == |order| == |trips|
      ensures r.Some? ==> forall i :: 0 <= i < |order| ==> r.value[i].tripId == order[i] && Summary(order[i], trips[order[i]]) == Some(r.value[i])
      ensures r.Some? <==> forall k :: k in trips ==> |trips[k].states| > 0
    {
      DistinctKeysCount(this);
      Rows(order)
    }
  }

  /** Under `Valid`, the insertion order lists each key once, so it is as long as the map. */
  lemma {:induction false} DistinctKeysCount(t: Table)
    requires t.Valid()
    ensures |t.order| == |t.trips|
    decreases |t.order|
  {
    if t.order != [] {
      var k := t.order[|t.order| - 1];
      var rest := Table(t.trips - {k}, t.order[..|t.order| - 1]);
      forall j | j in rest.trips ensures j in rest.order {
        var i :| 0 <= i < |t.order| && t.order[i] == j;
        assert i != |t.order| - 1;
      }
      assert rest.Valid();
      DistinctKeysCount(rest);
    }
  }

  /** Registering the same trip twice leaves the registry as registering it once. */
  lemma PutIdempotent(t: Table, x: Trip)
    ensures t.Put(x).Put(x) == t.Put(x)
  {
  }

  /** The registry object: a dictionary updated in place. */
  class Registry {
    var table: Table

    ghost predicate Valid()
      reads this
    {
      table.Valid()
    }

    constructor ()
      ensures Valid() && table == Table(map[], [])
    {
      table := Table(map[], []);
    }

    /** Store `t` under `t.id`, overwriting an earlier registration. */
    method Register(t: Trip)
      requires Valid()
      modifies this
      ensures Valid() && table == old(table).Put(t)
    {
      table := table.Put(t);
    }

    /** Look a trip up by id. */
    function Get(k: nat): (r: Option<Trip>)
      reads this
      ensures r == table.Get(k)
    {
      table.Get(k)
    }

    /** Per-trip start, end and state, one row per registered trip. */
    function Dump(): (r: Option<seq<Row>>)
      reads this
      requires Valid()
      ensures r == table.Dump()
    {
      table.Dump()
    }
  }
}
