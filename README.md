# Crate pool simulation — a Dafny model

This project models the simulation engine of a crate-rental system. A
population of crates moves between three states: `home`, `rented` and
`lost`. Every simulated day the crate pool does five things:
- it asks one selection pool per state which crates are due to leave;
- it flips a loss coin for each rented crate;
- it moves every due crate to its next state, and opens, extends or closes
  the crate's trip record;
- it adds newly made crates and moves the date on by one day;
- it reports how many crates are in each state.

Every trip is kept in a registry under its id, and the registry can be dumped
as one summary row per trip.

The model has five modules, one file each:

- `Common` (`common.dfy`): the three states, `Option`, and `Mult`, the number
  of times an id occurs in a sequence.
- `Records` (`records.dfy`): the per-kind auto-increment counters (`IdCounter`),
  the `Trip` record, the registry's dictionary as a value (`Table`, trips by id
  plus insertion order) and the `Registry` object that updates it in place,
  and the dump row of a trip (`Summary`).
- `PoolSampling` (`pool_sampling.dfy`): the selection pools as classes whose
  methods update their fields. `ArrayPool` covers the base array pool with
  the LIFO and Sink draw disciplines. `Fifo` is the delayed FIFO with
  `delay + 1` buckets. `LogNormal` is the countdown pool. Each comes with
  the functions its contracts are stated in: `Without`, `First`, `Last`,
  `Flatten`, `Shifted`, `Aged`, `DueIn`, `Decremented`.
- `Census` (`census.dfy`): a value-level view of a population as (id, state)
  entries. It defines the per-state counts and census, and the `Tracked`
  relation: each pool holds exactly the ids of the crates in its state, each
  once.
- `StateMachine` (`state_machine.dfy`): the transition table; the `CRT` class
  with `Next` and `Lose`; the value-level day step `Step`; and the `CRTPool`
  class, whose `Proceed` runs one day. `Proceed` is `MoveCrates` followed by
  `Restock` (replenishment and the date). `MoveCrates` is `DrawAll` (the
  `requests`) followed by `VisitAll` (the loop over the crates, one `Visit`
  per crate). `CRTPool.Valid` is the invariant: the pools
  track the crate states; ids are distinct and below the crate counter; and
  every open trip fits its crate and is the one the registry holds.

Randomness is supplied by the caller:
- the log-normal countdown is the `steps` argument of `LogNormal.Ingress`,
  and `Proceed` takes it as a function of the crate id;
- the loss coins are the set `losses` of rented crate ids whose coin came up;
- the Poisson replenishment draw is the count `n`.

Days are integers.

## Model

| member | source | states |
|---|---|---|
| Records.IdCounter.constructor | synthetic/records.py:17 | a kind's counter starts at 1 |
| Records.IdCounter.Take | synthetic/records.py:19-21 | hands out the current value and increments the counter by one |
| Records.IndependentCounters | synthetic/records.py:12-21 | for instances of two kinds made in any order, each instance's id is one more than the number of instances of its own kind made before it, so each kind is numbered 1, 2, ... on its own |
| Records.CountBeforeGrows | synthetic/records.py:19-21 | a later instance of the same kind has more instances of its kind before it, so ids within a kind strictly increase in creation order |
| Records.NewTrip | synthetic/records.py:24-32 | a new trip has the given crate, day and entries, and the next Trip id; the counter goes up by one |
| Records.TwoTrips | synthetic/records.py:19-21 | trips constructed one after the other get strictly increasing, consecutive ids |
| Records.Table.Put | synthetic/records.py:42-46 | `registry[trip.id] = trip`: the trip is stored under its id, overwriting an earlier one; every other key and value is unchanged; a new key goes last in the iteration order, an existing key keeps its place; validity is kept |
| Records.PutIdempotent | synthetic/records.py:46 | registering the same trip twice gives the same registry as registering it once |
| Records.Table.Get | synthetic/records.py:48-49 | `registry[k]` is the stored trip, or nothing (a `KeyError`) exactly when `k` was never registered |
| Records.Registry.constructor | synthetic/records.py:39-40 | a new registry is empty |
| Records.Registry.Register | synthetic/records.py:42-46 | the in-place registry's table becomes the old table with the trip put in |
| Records.Registry.Get | synthetic/records.py:48-49 | lookup on the registry object is lookup on its table |
| Records.Summary | synthetic/records.py:60-66 | a trip's dump row has `start` = day of the first entry, `state` = label of the last entry, and `end` = day of the last entry exactly when that label is `home` (absent otherwise); a trip with no entries has no row, as `states[0]` fails |
| Records.CompletedTripSummary | synthetic/records.py:63-65 | a trip rented on `out` and home on `back` has the row (start `out`, end `back`, state home) |
| Records.OpenOrLostTripSummary | synthetic/records.py:64 | a trip still out or ended in a loss has no end date, and its state is its last label |
| Records.Table.Rows | synthetic/records.py:58-68 | the rows for a key sequence are one summary per key, in order; they exist exactly when every one of those trips has an entry |
| Records.Table.Dump | synthetic/records.py:54-68 | the dump has exactly one row per registered trip, in registration order, each that trip's summary under its key |
| Records.DistinctKeysCount | synthetic/records.py:67 | the insertion order lists each key once, so the dump has as many rows as the registry has trips |
| Records.Registry.Dump | synthetic/records.py:54-68 | the registry object's dump is its table's dump |
| PoolSampling.Without | synthetic/pool_sampling.py:29 | `pool[pool != idx]` holds every id of the pool except `idx`, and nothing else |
| PoolSampling.WithoutConcat | synthetic/pool_sampling.py:29 | filtering distributes over concatenation, so the remaining ids keep their order |
| PoolSampling.WithoutAbsent | synthetic/pool_sampling.py:29 | filtering out an id that is not there changes nothing |
| PoolSampling.MultWithout | synthetic/pool_sampling.py:29 | filtering removes every occurrence of `idx` and keeps the number of occurrences of every other id |
| PoolSampling.ArrayPool.constructor | synthetic/pool_sampling.py:15-16 | a new array pool is empty |
| PoolSampling.ArrayPool.Ingress | synthetic/pool_sampling.py:18-22 | `ingress` appends the id at the end |
| PoolSampling.ArrayPool.Egress | synthetic/pool_sampling.py:24-29 | `egress` deletes every occurrence of the id and keeps the rest in order |
| PoolSampling.ArrayPool.Remove | synthetic/pool_sampling.py:31-35 | `remove` is `egress` |
| PoolSampling.ArrayPool.Draw | synthetic/pool_sampling.py:122-124 | LIFO returns the last `min(n, \|pool\|)` ids in insertion order; Sink returns nothing (lines 167-168); either way at most `n` ids, none more often than in the pool, and the pool is unchanged |
| PoolSampling.Last | synthetic/pool_sampling.py:123 | the last `min(n, \|s\|)` elements of `s`, as a suffix of `s` |
| PoolSampling.LifoDrawsNewest | synthetic/pool_sampling.py:123 | the LIFO draw has `min(n, \|s\|)` ids, and its element `i` is element `\|s\| - min(n, \|s\|) + i` of the pool |
| PoolSampling.First | synthetic/pool_sampling.py:150 | the first `min(n, \|s\|)` elements of `s`, as a prefix of `s` |
| PoolSampling.Fifo.constructor | synthetic/pool_sampling.py:133-136 | a new FIFO has `delay + 1` empty buckets |
| PoolSampling.Fifo.Ingress | synthetic/pool_sampling.py:138-139 | the id is appended to bucket `delay`; every other bucket is unchanged |
| PoolSampling.Fifo.Egress | synthetic/pool_sampling.py:141-143 | only an id in bucket 0 may leave (the assertion); it is removed from bucket 0 only |
| PoolSampling.Fifo.Remove | synthetic/pool_sampling.py:145-147 | the id is deleted from every bucket, due or not; the loop's invariants carry the buckets done and the buckets still to do |
| PoolSampling.Fifo.Draw | synthetic/pool_sampling.py:149-159 | returns the first `min(n, \|bucket 0\|)` ids of bucket 0 as it was, and, whatever `n` is, ages the buckets: new bucket 0 = old 0 ++ old 1, bucket k = old k+1, the last empty; with delay 0 nothing moves |
| PoolSampling.Shifted | synthetic/pool_sampling.py:152-158 | the aging step: with one bucket nothing moves; otherwise new bucket 0 is old bucket 0 followed by old bucket 1, bucket `k` is old bucket `k + 1`, and the last bucket is empty |
| PoolSampling.FlattenConcat | synthetic/pool_sampling.py:135 | the ids of a list of buckets, read bucket by bucket, are those of its first part followed by those of the rest |
| PoolSampling.Aged | synthetic/pool_sampling.py:149-159 | the buckets after `k` draws with no ingress: as many buckets, and the last `k` of them (bucket 0 excepted) are empty |
| PoolSampling.AgedKeepsMembers | synthetic/pool_sampling.py:152-158 | any number of draws neither loses, duplicates nor reorders an id of the FIFO |
| PoolSampling.WithoutEach | synthetic/pool_sampling.py:145-147 | `remove` on the buckets: as many buckets, each with every occurrence of the id taken out |
| PoolSampling.ShiftedKeepsMembers | synthetic/pool_sampling.py:152-158 | the aging step neither loses, duplicates nor reorders an id: the buckets read in order are the same sequence before and after |
| PoolSampling.InFlatten | synthetic/pool_sampling.py:135 | an id is held by the FIFO exactly when one of its buckets holds it |
| PoolSampling.FlattenAppendAt | synthetic/pool_sampling.py:139 | appending to one bucket adds one occurrence of that id to the FIFO and no other |
| PoolSampling.FlattenWithoutAt | synthetic/pool_sampling.py:143 | taking a once-held id out of its bucket removes it from the FIFO and keeps every other id's count |
| PoolSampling.AgedPosition | synthetic/pool_sampling.py:152-158 | an id first found in bucket `j` is, after `k <= j` draws, in bucket `j - k` and in no earlier bucket |
| PoolSampling.DueAfterExactlyDelay | synthetic/pool_sampling.py:139-158 | an id ingressed into the last bucket (and in no earlier one) is not in bucket 0 after fewer than `delay` draws, and is in bucket 0 after exactly `delay` draws |
| PoolSampling.LogNormal.constructor | synthetic/pool_sampling.py:69-73 | a new countdown pool is empty and keeps its mean and spread |
| PoolSampling.LogNormal.Ingress | synthetic/pool_sampling.py:75-80 | the id's countdown is set to the given steps; a new id goes last in the dictionary order, an existing one keeps its place |
| PoolSampling.LogNormal.Egress | synthetic/pool_sampling.py:82-84 | `pop` needs the key to be present; the key and its countdown are removed, the others kept in order |
| PoolSampling.LogNormal.Remove | synthetic/pool_sampling.py:86-88 | same as `egress` |
| PoolSampling.DueIn | synthetic/pool_sampling.py:96 | the keys, in dictionary order, whose countdown is below zero, and no others |
| PoolSampling.Due | synthetic/pool_sampling.py:96 | the set of keys whose countdown is below zero |
| PoolSampling.Decremented | synthetic/pool_sampling.py:99-100 | every countdown one lower, the same keys |
| PoolSampling.LogNormal.Draw | synthetic/pool_sampling.py:90-102 | returns exactly the keys whose countdown was below zero before the call, in dictionary order, then lowers every countdown by one; the keys do not change and `n` is ignored; the loop's invariants split done and not-yet-done keys |
| PoolSampling.Counted | synthetic/pool_sampling.py:99-100 | the countdowns after `k` draws have the same keys |
| PoolSampling.CountedValue | synthetic/pool_sampling.py:96-100 | after `k` draws a countdown that started at `c` is `c - k`, so the id is returned by draw `k + 1` exactly when `c - k < 0` |
| Census.Report | synthetic/state_machine.py:161-168 | the census lists the count of each state in the order home, rented, lost, and the counts sum to the population size |
| Census.CountsSum | synthetic/state_machine.py:161-168 | every crate is counted in exactly one state |
| Census.CountAllIn | synthetic/state_machine.py:161-168 | a population all in one state counts all of them there and none elsewhere |
| Census.CountUpdate | synthetic/state_machine.py:161-168 | changing one crate's state moves one unit of count from the old state to the new |
| Census.CountsMeans | synthetic/state_machine.py:108-112 | when a pool tracks a state, it holds an id exactly when a crate with that id is in that state, and holds it at most once |
| Census.TrackedAppend | synthetic/state_machine.py:154-159 | adding a crate while its id enters the pool of its state keeps every pool tracking its state |
| Census.TrackedMove | synthetic/state_machine.py:126-140 | moving a crate to a new state while its id moves from the old state's pool to the new one keeps every pool tracking its state |
| Census.AppendKeeps | synthetic/state_machine.py:44-46 | a crate with a new id below the counter keeps the ids distinct and below the counter, and no pool holds it yet |
| StateMachine.Transition | synthetic/state_machine.py:28-32 | the transition table: rent leaves home only, recall and lose leave rented only, to home and lost |
| StateMachine.Appended | synthetic/state_machine.py:58 | the same trip with one more (label, day) entry at the end |
| StateMachine.CRT.constructor | synthetic/state_machine.py:25-46 | a new crate is at home with no trip, keeps its creation day, takes the current crate counter value as its id and increments the counter |
| StateMachine.CRT.Next | synthetic/state_machine.py:48-63 | from home: opens `Trip(id, day, [(rented, day)])` with the next trip id, reports it once and is rented; from rented: reports the trip with `(home, day)` appended, drops it and is home; from lost: appends another `(lost, day)` and reports nothing |
| StateMachine.CRT.Lose | synthetic/state_machine.py:65-70 | needs an open trip; appends `(lost, day)`, moves to lost, keeps the trip and reports nothing |
| StateMachine.NextAlternates | synthetic/state_machine.py:52-61 | two `next` calls take a new crate to rented and back home, the second reporting the closed trip `[(rented, d), (home, d)]` |
| StateMachine.Requested | synthetic/state_machine.py:135 | a crate is due exactly when its id is among the ids drawn from the pool of its current state |
| StateMachine.NextState | synthetic/state_machine.py:123-140 | a rented crate whose coin came up is lost; otherwise a due home crate is rented and a due rented crate is home; otherwise the state is kept; lost stays lost |
| StateMachine.NextStateFollowsTable | synthetic/state_machine.py:28-32 | every change `NextState` makes is one the transition table allows |
| StateMachine.Step | synthetic/state_machine.py:123-140 | the population after the loop: same ids in the same order, each crate in the state `NextState` gives it |
| StateMachine.StepFollowsTable | synthetic/state_machine.py:123-140 | within one day each crate makes at most one move, one the table allows, and a lost crate never moves again |
| StateMachine.RentOutKeeps | synthetic/state_machine.py:135-140 | renting out a due home crate, with a new trip registered, keeps the pools tracking the states and the trips consistent with the registry |
| StateMachine.RecallKeeps | synthetic/state_machine.py:135-140 | recalling a due rented crate, its closed trip re-registered, keeps the pools tracking the states and the trips consistent |
| StateMachine.LoseKeeps | synthetic/state_machine.py:126-133 | losing a rented crate keeps the pools tracking the states and the trips consistent |
| StateMachine.AgedQuiet | synthetic/pool_sampling.py:152-158 | with nothing moving, crates in the last of eight home buckets are in bucket `7 - k` after `k` draws, every other bucket empty |
| StateMachine.TenCratesScenario | synthetic/state_machine.py:103-112 | for ten crates fresh from the constructor, a day of demand 0 in the first seven moves no crate; after seven agings all ten are in bucket 0, and a day of demand 1 then rents out exactly one crate, the oldest, leaving one crate rented |
| StateMachine.CRTPool.constructor | synthetic/state_machine.py:80-112 | a new pool keeps the given registry or makes an empty one; its `n_crates` crates are new, at home, numbered from the crate counter, all in the last home bucket in creation order; the FIFO has delay 7; the invariant holds |
| StateMachine.CRTPool.PoolsHoldStates | synthetic/state_machine.py:108-112 | under the invariant, each pool holds an id exactly when a crate with that id is in the pool's state, and holds it once |
| StateMachine.CRTPool.Snapshot | synthetic/state_machine.py:167 | the population read off the crates: one (id, state) pair per crate, in crate order |
| StateMachine.CRTPool.SnapshotIsEntries | synthetic/state_machine.py:161-168 | the (id, state) pairs read off the crates are the population the proofs track |
| StateMachine.CRTPool.Report | synthetic/state_machine.py:161-168 | the census counts the crates' own states per state, in the order home, rented, lost, and sums to the number of crates |
| StateMachine.CRTPool.IngressInto | synthetic/state_machine.py:158 | `state_pools[s].ingress(idx)`: only the pool of `s` changes, and it gains exactly one occurrence of `idx` |
| StateMachine.CRTPool.AddCrt | synthetic/state_machine.py:154-159 | the crate is appended and its id enters the pool of its state; the invariant is kept |
| StateMachine.CRTPool.AddNewCrates | synthetic/state_machine.py:145-147 | `n` new home crates with consecutive ids and the given creation day are appended, and their ids are appended to the last home bucket in order |
| StateMachine.CRTPool.AddNewCrate | synthetic/state_machine.py:146-147 | a new crate is made at home with no trip, takes the next crate id and the given creation day, is appended, and its id goes to the end of the last home bucket; the registry, the rented and the lost pools are untouched |
| StateMachine.CRTPool.Restock | synthetic/state_machine.py:144-149 | the crates so far and their trips are kept; `n` new home crates created today are added with consecutive ids, and their ids go to the end of the last home bucket, and the crate counter goes up by exactly `n`; the rented and lost pools and the registry are untouched; the date moves on by one |
| StateMachine.CRTPool.RentOut | synthetic/state_machine.py:135-140 | a due home crate leaves bucket 0, opens and registers a new trip, and enters the rented countdown with the given steps; the invariant is kept |
| StateMachine.CRTPool.Recall | synthetic/state_machine.py:135-140 | a due rented crate leaves the countdown, its trip gains `(home, day)` and is registered, it drops the trip and enters the last home bucket; the invariant is kept |
| StateMachine.CRTPool.LoseCrate | synthetic/state_machine.py:126-133 | a rented crate whose coin came up is removed from the countdown, its trip gains `(lost, day)` (also in the registry), and it enters the lost sink; the invariant is kept |
| StateMachine.CRTPool.RentSteps | synthetic/state_machine.py:135-140 | the object updates of renting out: the id leaves bucket 0, the crate is rented with a new trip under the next trip id, the trip is registered and the id's countdown starts at `steps` |
| StateMachine.CRTPool.RecallSteps | synthetic/state_machine.py:135-140 | the object updates of a recall: the id leaves the countdowns, the crate is home with no trip, its closed trip is registered and the id goes to the end of the last home bucket |
| StateMachine.CRTPool.LoseSteps | synthetic/state_machine.py:126-133 | the object updates of a loss: the id leaves the countdowns, the crate is lost with `(lost, day)` appended to its trip, the extended trip is registered and the id enters the sink |
| StateMachine.CRTPool.Visit | synthetic/state_machine.py:123-140 | one loop iteration: the crate ends in the state `NextState` gives it and holds the trip `TripAfter` gives it. A crate that does not move changes nothing: registry, trip counter and pools as they were. One rented out leaves bucket 0, its new trip is registered under the current trip counter, the counter goes up by one and the crate joins the countdowns. One recalled or lost leaves the countdowns, its trip with the new mark is registered and the trip counter is unchanged; a recalled crate joins the last home bucket, a lost one the sink. Other due home crates stay in bucket 0 |
| StateMachine.CRTPool.DrawAll | synthetic/state_machine.py:119-121 | the `requests`: home gives the first `demand` ids of old bucket 0 and ages; rented gives the due keys and counts down; lost gives nothing; every drawn home id is still in bucket 0 |
| StateMachine.CRTPool.VisitAll | synthetic/state_machine.py:123-140 | after the loop the population is `Step` of the one before; every crate holds the trip `TripAfter` gives it and every crate that came home has its closed trip registered (`DayTrips`); every trip registered before the pass is still registered, and one that no moving crate held, a closed trip in particular, keeps its value (`LogKept`); the trip counter goes up by exactly the number of crates rented out in the pass (`RentedOut`); on a day when no crate moves, the registry and all pools are unchanged |
| StateMachine.CRTPool.VisitLogged | synthetic/state_machine.py:123-140 | one visit within the loop advances the loop's invariant by one crate: states, trips, logged returns, the registry's earlier trips kept, the trip counter, due home crates, and the quiet-so-far registry and pools |
| StateMachine.LogVisit | synthetic/state_machine.py:123-140 | a visit that leaves the registry as `Visit` says (unchanged, a new trip under a fresh id, or the crate's own trip extended) keeps every earlier crate's logged return and logs this crate's, keeps every trip registered before the pass, and changes the value of none that no moving crate held; the trip counter goes up by one exactly when this crate was rented out |
| StateMachine.RentedOut | synthetic/state_machine.py:52-53 | the number of crates among the first `i` that went from home to rented, which is how many trips the pass opens; at most `i` |
| StateMachine.RentedOutAtMostHome | synthetic/state_machine.py:52-53 | only a crate at home is rented out, so a pass opens at most as many trips as the census counted crates at home |
| StateMachine.CRTPool.MoveCrates | synthetic/state_machine.py:119-140 | the `requests` and the loop: the population becomes `Step` on the drawn ids and coins, the trips and logged returns are as `DayTrips` says, the registry keeps its earlier trips and the values of those no moving crate held (`LogKept`), the trip counter goes up by the number of crates rented out and the crate counter is unchanged, and on a day when no crate moves the registry and the rented and lost pools are unchanged while the home FIFO has aged one step and the countdowns are one lower |
| StateMachine.CRTPool.Proceed | synthetic/state_machine.py:114-152 | one day: old crates are those of `Step` on the drawn ids and coins and hold the trips `DayTrips` gives them, with every return logged; every trip registered before the day is still registered, and one no moving crate held keeps its value (`LogKept`); the trip counter goes up by the number of old crates rented out; exactly `n` new home crates created today are appended and the crate counter goes up by `n`; on a day when no old crate moves the registry, rented and lost pools are unchanged, the FIFO has aged one step and gained the new ids, and the countdowns are one lower; the date moves on by one; the census is that of the new population; the invariant is kept |

## Left out

- `Poisson` and `Scrambling` draw at random (synthetic/pool_sampling.py:48-61, 105-114) and are not used by the crate pool; they are not modelled.
- `synthetic/generate.py` (command line, demand synthesis, plotting, file output) is not part of this model.
- Randomness is supplied by the caller: the log-normal countdown (`steps`), the loss coins (`losses`, the ids whose coin came up) and the replenishment count (`n`). Their distributions are not modelled.
- The `transitions` library is replaced by the three-state enum and the `Transition` table. `to_lost` is modelled as a plain state change.
- Dates are integer day numbers; `timedelta(days=1)` is `+ 1`. The default `created_at=date` of crates made by the pool constructor is modelled as `None`.
- Countdowns are reals, not floating point.
- Ids are integers, whereas numpy stores FIFO buckets as float arrays.
- Records.Table.Dump, Records.Registry.Dump: return a sequence of rows instead of a DataFrame; `pd.to_datetime` and the `__repr__` methods are left out. On an empty registry the source's `dump` fails with a `KeyError` at synthetic/records.py:70, because a DataFrame built from no rows has no `start` column; the model returns the empty sequence of rows there instead.
- A lost crate reaches the registry because the registry and the crate share one `Trip` object. The model has no shared object: the pool re-registers the extended trip after a loss. The registry therefore holds the same values as it does in the source.
- PoolSampling.ArrayPool.Draw, PoolSampling.Fifo.Draw: `n` is a natural number. In the source `n = None` fails with a `TypeError` at the `n <= len(...)` comparison (synthetic/pool_sampling.py:123, 150). A negative `n` gives an empty LIFO draw, and a FIFO draw of bucket 0 without its last `-n` ids. Neither case is modelled: the crate pool draws with the day's demand, a count.
- `CRTPool.Visit`: the branch where a drawn lost crate calls `next` again is not modelled, because the lost pool is a Sink and never draws. `CRT.Next` does model that third branch on its own.
- `CRTPool.AddCrt`: requires a crate that is new to the pool (an id not yet used, below the crate counter) and whose trip, if any, is registered. Every caller in the source guarantees this; adding the same crate twice is not modelled.
- `CRTPool.constructor`: when a registry is passed in, its trip ids must be below the trip counter. In the source every trip takes its id from the one class-level counter, so this always holds.
- StateMachine.CRTPool.VisitAll, StateMachine.CRTPool.MoveCrates, StateMachine.CRTPool.Proceed: on a day when some crate moves, the pools after the day are stated only through the invariant (each pool holds exactly the crates of its state, each once), not bucket by bucket and countdown by countdown. The order in which the loop appends ids to the last home bucket and to the countdowns would need the whole pass's history in the contract. Each single move is stated in full by `Visit`. For the registry, `LogKept` says that no key is dropped and that no trip outside today's movers changes value. `DayTrips` gives each returning crate's closed trip, and the invariant says that every open trip is the one the registry holds. Two things are not stated after such a day: that the only new keys are the trips opened today, and the registry's insertion order. Both are left out for the same reason as the pools' order.
- PoolSampling.LogNormal.Egress, PoolSampling.Fifo.Egress: the source's error paths are preconditions here. The `KeyError` of `pop` on an absent id (synthetic/pool_sampling.py:84) and the `AssertionError` for an id outside bucket 0 (synthetic/pool_sampling.py:142) are not modelled as results. The crate pool only egresses ids that were drawn, which are present and due.
- `StateMachine.TenCratesScenario`: is stated on the value-level day step `Step` and the FIFO aging `Aged`. It is not a chain of eight `Proceed` calls on one pool object.
