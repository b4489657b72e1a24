# Dining philosophers: a verified model of the discrete-event simulation

`dining_philosophers.py` simulates n philosophers around a table with n
chopsticks. Philosopher i reaches for chopstick i on its left and chopstick
(i + 1) mod n on its right. A philosopher asks for both chopsticks: it gets
them only if both lie on the table, and then eats for an exponentially
distributed time with rate `mi`. If either is held, the request fails and the
philosopher asks again after an exponential delay with its own rate `lambda`.
At the end of a meal it puts both chopsticks down and asks again later.

The simulation runs as a discrete-event loop over a heap of events ordered by
time. It first seeds one request per philosopher at time 0. Then, while the
clock is below the horizon T, it pops the earliest event, moves the clock to
that event, hands it to its philosopher's `request` or `finish` handler and
pushes the follow-up event the handler returns. At the end it drops the heap.

The model has four modules:

- `Ring` (ring.dfy): the index wiring of the ring and what it implies about
  which seats share a chopstick.
- `Table` (table.dfy): the table as values — which chopsticks are free and who
  is eating. It holds the consistency predicate (a chopstick is free exactly
  when neither of its two users eats, and no two neighbours eat) and proofs
  that picking up and putting down keep it.
- `Horizon` (horizon.dfy): the counting argument for why the event loop
  reaches T when every delay is at least some positive step.
- `DiningPhilosophers` (dining_philosophers.dfy):
  - the `Chopstick`, `Philosopher` and `Simulation` classes with the source's
    fields and methods;
  - the `Event` datatype and its order;
  - a pure specification (`Handle`, `TableOk`) that the imperative methods
    are proved against.

The pure specification works as follows:

- `Handle` says what one event does to the chopsticks and to the handling
  philosopher's statistics.
- `TableOk` is the loop invariant, stated on values:
  - exactly one pending event per philosopher;
  - no pending event before the clock;
  - statistics consistent with the clock;
  - the chopsticks free exactly when none of their users has a pending
    FINISH event.
- `HandleKeepsTableOk` proves that handling the earliest event keeps
  `TableOk`.
- `Dispatch`, `Serve` and `Step` are proved to leave the chopsticks, the
  statistics and the follow-up kind exactly as `Handle` gives them for the
  event they handle. `Step` states this as one `Turn`: the earliest event is
  handled at its own time and replaced by its follow-up.
- `EventLoop` and `Run` return the ghost run they performed: a `history` of
  snapshots (chopsticks, statistics, pending events, clock) in which each
  snapshot follows from the one before by a `Turn`. The last snapshot is the
  objects' final state. `ChainKeepsOk` proves that every snapshot of such a
  run keeps `TableOk`.
- `Seed` is proved against `SeedSpec`, the fold of `Handle` over the seats
  asking in order at time 0. `SeedSpecPattern` gives the fold's closed form:
  seat j eats exactly when j is even and seat j + 1 exists, or when j is
  the only seat.
- The invariant `Inv` ties the objects to `TableOk`.

Random draws are parameters. `random.expovariate(rate)` equals
`-log(1 - random()) / rate`. The model takes the standard exponential draw
`-log(1 - random())` as a number supplied by the caller (`sample`, or
`samples(k)` for the k-th draw), and the delay is that draw divided by the
rate. Times are exact `real`s.

## Model

| member | source | states |
|---|---|---|
| Ring.RightIsModulo | dining_philosophers.py:76 | the right chopstick of seat i is (i + 1) mod n, i.e. i + 1, wrapping from n - 1 to 0 |
| Ring.Users | dining_philosophers.py:74-76 | chopstick c is reached for by exactly two seats, c (on its left) and the seat before c (on its right), and by no one else |
| Ring.NextPrev | dining_philosophers.py:74-76 | the seat after i and the seat before i undo each other around the ring |
| Ring.SharedWithNext | dining_philosophers.py:75-76 | seat i's right chopstick is the next seat's left chopstick, including seat n - 1 and seat 0 |
| Ring.NeighboursShareExactlyOne | dining_philosophers.py:74-76 | with three or more seats, consecutive philosophers share exactly one chopstick |
| Ring.OthersShareNone | dining_philosophers.py:74-76 | philosophers that are not neighbours share no chopstick |
| Table.PickUpBoth | dining_philosophers.py:41-42 | after a pick-up, a chopstick is free iff it was free and is neither of philosopher i's two; all others keep their state |
| Table.PutDownBoth | dining_philosophers.py:50-51 | after a put-down, a chopstick is free iff it was free or is one of philosopher i's two |
| Table.EmptyTableConsistent | dining_philosophers.py:16-17 | all chopsticks free and nobody eating is a consistent table |
| Table.PickUpKeepsConsistent | dining_philosophers.py:40-42 | a waiting philosopher that finds both chopsticks free and takes them keeps the table consistent, now eating |
| Table.PutDownKeepsConsistent | dining_philosophers.py:49-51 | an eating philosopher that puts both chopsticks down keeps the table consistent, no longer eating |
| Table.EaterHoldsBoth | dining_philosophers.py:40-42 | on a consistent table, an eating philosopher's two chopsticks are both off the table |
| Table.AtMostOneHolder | dining_philosophers.py:40-53 | mutual exclusion: with two or more seats, the two users of a chopstick never eat at once |
| Horizon.Budget | dining_philosophers.py:82 | enough whole steps of a positive length to reach the horizon T |
| Horizon.SlackStep | dining_philosophers.py:82 | counting one more processed event for a philosopher with budget left lowers the loop's measure by exactly one |
| Horizon.BelowHorizon | dining_philosophers.py:82 | an event before T that lies at least `count` steps after time 0 leaves `count` below the budget |
| DiningPhilosophers.PrecedesIsStrictWeakOrder | dining_philosophers.py:63-64 | ordering events by time alone is irreflexive and transitive, and two events are unordered exactly when their times are equal |
| DiningPhilosophers.EarliestExists | dining_philosophers.py:83 | a non-empty heap always holds an event that no other pending event precedes |
| DiningPhilosophers.Expovariate | dining_philosophers.py:44 | the delay times the rate gives back the draw, and a positive draw gives a positive delay |
| DiningPhilosophers.ShortestDelay | dining_philosophers.py:44-53 | the delay from the smallest draw at the largest rate is positive, so every follow-up lies strictly after its event |
| DiningPhilosophers.ExpovariateAtLeast | dining_philosophers.py:44-53 | a draw at least `floor` at a rate at most `maxRate` gives a delay at least `floor / maxRate` |
| DiningPhilosophers.MaxRate | dining_philosophers.py:29-30 | a number at least 1 and at least every philosopher's `mi` and `lambda` |
| DiningPhilosophers.TraceStep | dining_philosophers.py:82-84 | processing an event no earlier than the clock, while the clock is below T, keeps the processed times non-decreasing with only the latest at or after T |
| DiningPhilosophers.TraceReachesHorizon | dining_philosophers.py:82-84 | once the clock is at or past T > 0, some event was processed and the latest one is at or past T; with T <= 0 none was |
| DiningPhilosophers.Handle | dining_philosophers.py:38-53 | handling philosopher i's event on the values of the table: the follow-up is a FINISH exactly when the event is a request that finds both of i's chopsticks free, and the failed-attempt count grows by one exactly on a failed request |
| DiningPhilosophers.HandleFrame | dining_philosophers.py:38-53 | handling philosopher i's event leaves every chopstick other than i's two in the state it was |
| DiningPhilosophers.HandleLogsRequests | dining_philosophers.py:39 | a request appends its time to the end of the request log and keeps the earlier entries; a finish leaves the log unchanged |
| DiningPhilosophers.HandleKeepsStarted | dining_philosophers.py:39 | handling an event keeps every philosopher's first logged request where it was |
| DiningPhilosophers.SeedAskStep | dining_philosophers.py:38-47 | when seats before i asked at time 0 in order, asking seat i succeeds exactly when i is even and seat i + 1 exists or i is the only seat; the chopsticks and statistics then match the closed form for seats up to i |
| DiningPhilosophers.SeedSpecPattern | dining_philosophers.py:79-81 | the fold of `Handle` over the first k seats asking at time 0 has that closed form: its kinds, chopsticks and statistics |
| DiningPhilosophers.SeedIsSpec | dining_philosophers.py:79-81 | chopsticks, statistics and kinds in the closed form after all n seats asked are exactly what the fold gives |
| DiningPhilosophers.SeededStarted | dining_philosophers.py:80-81 | after all seats asked at time 0, every philosopher's request log is exactly [0] |
| DiningPhilosophers.PrefixReplace | dining_philosophers.py:80-81 | replacing the i-th seeded event by its follow-up extends the pushed prefix by that follow-up |
| DiningPhilosophers.ReplaceInMultiset | dining_philosophers.py:83-89 | popping event i and pushing its follow-up leaves the heap holding the pending events with event i replaced |
| DiningPhilosophers.LaterClockKeepsOk | dining_philosophers.py:84 | statistics consistent with the clock stay so when the clock moves forward |
| DiningPhilosophers.RequestKeepsOk | dining_philosophers.py:38-47 | whether a request succeeds or fails, the request log stays strictly increasing and the statistics stay consistent; after a success the meal starts at the latest request |
| DiningPhilosophers.FinishKeepsOk | dining_philosophers.py:49-53 | a finish adds t - startedAt >= 0 to the eating time and keeps the statistics consistent with the clock at t |
| DiningPhilosophers.HandleKeepsTableOk | dining_philosophers.py:83-89 | handling the earliest pending event keeps the run invariant with the clock at that event's time: one pending event per philosopher, none before the clock, statistics consistent, chopsticks free exactly when no user eats |
| DiningPhilosophers.TableOkSettles | dining_philosophers.py:78-90 | the run invariant gives a consistent table and statistics consistent with the clock for every philosopher |
| DiningPhilosophers.TurnIntro | dining_philosophers.py:83-89 | popping the earliest event, handling it at its time as `Handle` says and pushing a follow-up of the kind `Handle` names, at the rate that kind names, makes one turn |
| DiningPhilosophers.TurnKeepsOk | dining_philosophers.py:83-89 | one turn with a positive draw keeps the run invariant |
| DiningPhilosophers.ChainKeepsOk | dining_philosophers.py:82-89 | every snapshot of a run of turns from a state in the run invariant keeps it, and the clock never goes back from one snapshot to the next |
| DiningPhilosophers.RecordExtend | dining_philosophers.py:82-89 | a run extended by one turn from its last snapshot, with the next draw, is still a run whose processed times grow by the new clock |
| DiningPhilosophers.BudgetedStep | dining_philosophers.py:82-89 | processing an event before T uses one unit of the handling philosopher's budget, which was still available, and lowers the loop measure |
| DiningPhilosophers.BudgetedLater | dining_philosophers.py:82-89 | a follow-up no earlier than the event it replaces keeps the budget invariant |
| DiningPhilosophers.Chopstick.constructor | dining_philosophers.py:16-17 | a new chopstick lies on the table |
| DiningPhilosophers.Chopstick.PickUp | dining_philosophers.py:19-20 | the chopstick is held afterwards and nothing else changes |
| DiningPhilosophers.Chopstick.PutDown | dining_philosophers.py:22-23 | the chopstick is free afterwards and nothing else changes |
| DiningPhilosophers.Philosopher.constructor | dining_philosophers.py:28-36 | rates as given, zero failed attempts, zero eating time, meal start 0, empty request log |
| DiningPhilosophers.Philosopher.Request | dining_philosophers.py:38-47 | appends time to the request log. If both chopsticks were free, it takes both, starts the meal at time, keeps failed attempts and returns a FINISH at time + delay at rate mi. Otherwise it leaves the chopsticks and meal start alone, counts one more failed attempt and returns a REQUEST at time + delay at rate lambda. Eating time never changes |
| DiningPhilosophers.Philosopher.Finish | dining_philosophers.py:49-53 | both chopsticks free, eating time grown by exactly time - startedAt, everything else kept, and a REQUEST at time + delay at rate lambda returned |
| DiningPhilosophers.Simulation.constructor | dining_philosophers.py:69-76 | n distinct, newly created philosophers with rate mi and their own lambdas, over n distinct, newly created chopsticks all on the table; seat i holds chopstick i on the left and (i + 1) mod n on the right; no events; empty statistics |
| DiningPhilosophers.Simulation.OnlyChanged | dining_philosophers.py:38-53 | a handler of philosopher i changes only i's statistics and i's two chopsticks |
| DiningPhilosophers.Simulation.PopEarliest | dining_philosophers.py:83 | removes one copy of an event that no pending event precedes and leaves the chopsticks and statistics alone |
| DiningPhilosophers.Simulation.Push | dining_philosophers.py:89 | adds the event to the heap and leaves the chopsticks and statistics alone |
| DiningPhilosophers.Simulation.Clear | dining_philosophers.py:90 | empties the heap and leaves the chopsticks and statistics alone |
| DiningPhilosophers.Simulation.Dispatch | dining_philosophers.py:85-88 | the chopsticks, i's statistics and the follow-up's kind are exactly what `Handle` gives for the event's kind; the follow-up belongs to the same philosopher, and its delay is at rate mi after a successful request and lambda otherwise |
| DiningPhilosophers.Simulation.Serve | dining_philosophers.py:85-89 | dispatching the earliest event and pushing its follow-up leaves the chopsticks, i's statistics and the follow-up kind exactly as `Handle` gives them, adds the follow-up to the heap and restores the run invariant with the clock at the event's time |
| DiningPhilosophers.Simulation.AskAtStart | dining_philosophers.py:81 | asking seat i at time 0 and pushing the result extends the seeded prefix by one: the chopsticks and statistics reach the closed form for seats up to i, and the follow-up's kind and time follow from it |
| DiningPhilosophers.Simulation.Seed | dining_philosophers.py:79-81 | after seeding, the heap holds exactly one event per philosopher, the chopsticks and statistics are exactly the fold `SeedSpec` of `Handle` over the seats, each event's kind is the fold's and its time is its draw at that kind's rate, the invariant holds at clock 0, and every request log is [0] |
| DiningPhilosophers.Simulation.SeedingStarts | dining_philosophers.py:79-80 | before anyone asks, the freshly built table is seeded up to seat 0: all chopsticks free and all statistics empty |
| DiningPhilosophers.Simulation.SeedingDone | dining_philosophers.py:80-81 | once every seat asked, the whole queue is in the heap, the state equals the fold's result and every request log starts at 0 |
| DiningPhilosophers.Simulation.Step | dining_philosophers.py:83-89 | one turn pops an event no later than any pending one, moves the clock forward to it, leaves the chopsticks and that philosopher's statistics as `Handle` gives them, replaces the event by a follow-up of `Handle`'s kind at clock + delay at that kind's rate, and keeps the invariant |
| DiningPhilosophers.Simulation.Advance | dining_philosophers.py:82-89 | one pass of the loop extends the recorded run by one turn with the next draw, appends the new clock to the processed times and lowers the termination measure while the clock is below T |
| DiningPhilosophers.Simulation.EventLoop | dining_philosophers.py:82-89 | the loop ends with the clock at or past T, the invariant kept and the processed times non-decreasing; the run it performed starts from the seeded state, is a sequence of turns as `Handle` says, and ends in the objects' final state |
| DiningPhilosophers.Simulation.Run | dining_philosophers.py:78-90 | the heap is empty afterwards. The run starts from the seeded state of `SeedSpec`, proceeds turn by turn as `Handle` says and ends in the final chopsticks and statistics. Processed times never decrease, all but the last lie before T, and the last is at or past T when T > 0; with T <= 0 nothing is processed. The final table is consistent, so no two neighbours eat. Every philosopher first asked at time 0 and has statistics consistent with the final clock |
| DiningPhilosophers.Simulate | dining_philosophers.py:126-127 | builds a new, validly wired simulation from the given rates and runs it once, with everything `Run` promises: an empty heap; a recorded run that starts from the seeded state of `SeedSpec`, proceeds turn by turn as `Handle` says and ends in the final chopsticks and statistics; processed times that end at or past T when T > 0; a consistent final table; and every philosopher's first request at time 0 |

## Left out

- `Simulation.plot` (dining_philosophers.py:92-118) draws charts with matplotlib; it has no simulation logic.
- The module-level `run` helper (dining_philosophers.py:121-128) is modelled by `Simulate` with `mi` and `lambdas` given. Its defaults (dining_philosophers.py:122-125) draw random rates with `random.uniform` and rounding, which is floating-point randomness and is not modelled.
- The command-line entry point (dining_philosophers.py:131-165) covers argument parsing, input checks, printing, and a starvation search whose loop need not end.
- `random.expovariate` (dining_philosophers.py:44, 47, 53) is not modelled as a random source. Draws are parameters, and floating-point rounding is replaced by exact reals.
- `heapq` is modelled only as push and pop-minimum over a multiset. The list layout and the order among events with equal times are not modelled: any earliest event may be popped.
- The integer values of `EventTypes` (dining_philosophers.py:10-11) are not modelled, only the two kinds.
- DiningPhilosophers.Simulation.Run: requires every draw to be at least some positive floor. `random()` may return 0, which gives a zero delay, and without a floor the loop is not known to end.
- DiningPhilosophers.Simulation.Run: requires at least one philosopher when T > 0. With none, the source's `heappop` on the empty heap raises IndexError, and that error is not modelled.
- DiningPhilosophers.Simulation.Run: requires the state right after construction, as the program runs it once after building the simulation (dining_philosophers.py:126-127; `Simulate` makes that call). A second run over leftover statistics and held chopsticks is not modelled.
- DiningPhilosophers.Simulation.Run: requires positive rates. With a zero rate `expovariate` raises ZeroDivisionError, and with a negative rate delays are negative; neither is modelled.
- DiningPhilosophers.Philosopher.Request: requires positive rates, for the same reason.
- DiningPhilosophers.Philosopher.Finish: requires a positive rate, for the same reason.
- DiningPhilosophers.Philosopher.constructor: takes its two chopsticks as arguments. The source sets `left_chopstick` and `right_chopstick` right after construction (dining_philosophers.py:74-76), and nothing runs in between. The model's `Simulation.constructor` creates the chopsticks before the philosophers for the same reason.
