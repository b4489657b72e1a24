/** The discrete-event simulation of the dining philosophers: chopsticks that
    are free or held, philosophers that request both chopsticks and finish
    eating, events ordered by time, and the simulation that wires the ring and
    runs the event loop up to the horizon T. */
module DiningPhilosophers {
  import opened Ring
  import Table
  import Horizon

  /** What an event asks its philosopher to do. */
  datatype EventType = Request | Finish

  /** A scheduled event: the philosopher it belongs to, when it happens, and
      which handler it triggers. */
  datatype Event = Event(philosopher: Philosopher, time: real, kind: EventType)

  /** The scheduling order: events compare by time and nothing else, so two
      events at the same time are unordered. */
  predicate Precedes(a: Event, b: Event)
  {
    a.time < b.time
  }

  /** e may be popped next: it is pending and no pending event precedes it. */
  predicate Earliest(e: Event, events: multiset<Event>)
  {
    e in events && forall f :: f in events ==> !Precedes(f, e)
  }

  /** Ordering only by time is a strict weak order: it is irreflexive and
      transitive, and two events are unordered exactly when their times tie. */
  lemma PrecedesIsStrictWeakOrder(a: Event, b: Event, c: Event)
    ensures !Precedes(a, a)
    ensures Precedes(a, b) && Precedes(b, c) ==> Precedes(a, c)
    ensures !Precedes(a, b) && !Precedes(b, a) <==> a.time == b.time
  {
  }

  /** A non-empty heap always has an event that may be popped next. */
  lemma {:induction false} EarliestExists(events: multiset<Event>)
    requires events != multiset{}
    ensures exists e :: Earliest(e, events)
    decreases |events|
  {
    var x :| x in events;
    var rest := events - multiset{x};
    if rest == multiset{} {
      forall f | f in events
        ensures f == x
      {
        assert rest[f] == 0;
      }
      assert Earliest(x, events);
    } else {
      EarliestExists(rest);
      var m :| Earliest(m, rest);
      assert forall f :: f in events ==> f == x || f in rest;
      if Precedes(x, m) {
        assert Earliest(x, events);
      } else {
        assert Earliest(m, events);
      }
    }
  }

  /** `random.expovariate(rate)` is `-log(1 - random()) / rate`. The model takes
      the standard exponential draw `-log(1 - random())` as `sample`, so the
      delay is that sample stretched by the mean `1 / rate`. */
  function Expovariate(sample: real, rate: real): (delay: real)
    requires 0.0 < rate
    ensures delay * rate == sample
    ensures 0.0 < sample ==> 0.0 < delay
  {
    sample / rate
  }

  /** The rate of philosopher p's delay before an event of the given kind:
      a meal (a FINISH follows) lasts at rate mi, a wait before the next
      request at rate lambda. */
  function Rate(p: Philosopher, kind: EventType): real
  {
    if kind == Finish then p.mi else p.lambda
  }

  /** The delay drawn from the smallest sample `floor` at the largest rate
      `maxRate`. */
  function ShortestDelay(floor: real, maxRate: real): (d: real)
    requires 0.0 < floor && 0.0 < maxRate
    ensures 0.0 < d
  {
    floor / maxRate
  }

  /** A delay drawn from a sample no smaller than `floor`, at a rate no larger
      than `maxRate`, is at least the shortest delay. */
  lemma {:induction false} ExpovariateAtLeast(sample: real, rate: real, floor: real, maxRate: real)
    requires 0.0 < floor <= sample
    requires 0.0 < rate <= maxRate
    ensures ShortestDelay(floor, maxRate) <= Expovariate(sample, rate)
  {
    var d := Expovariate(sample, rate);
    assert d * rate == sample;
    assert floor / maxRate * maxRate == floor;
  }

  /** Times strictly increasing from left to right. */
  predicate Increasing(s: seq<real>)
  {
    forall i, j :: 0 <= i < j < |s| ==> s[i] < s[j]
  }

  /** Times never decreasing from left to right. */
  predicate NonDecreasing(s: seq<real>)
  {
    forall i, j :: 0 <= i < j < |s| ==> s[i] <= s[j]
  }

  /** The times of the events processed so far, with the clock at `time`
      and the horizon T: they never decrease, the clock is the latest of them
      (or 0 before the first), all but the latest lie before T, and with
      T <= 0 there are none. */
  predicate TraceOk(trace: seq<real>, time: real, T: real)
  {
    && 0.0 <= time
    && (T <= 0.0 ==> trace == [])
    && NonDecreasing(trace)
    && (trace == [] ==> time == 0.0)
    && (trace != [] ==> trace[|trace| - 1] == time)
    && (forall j :: 0 <= j < |trace| - 1 ==> trace[j] < T)
  }

  /** Processing an event at time t, no earlier than the clock, which was
      still before T, extends the trace. */
  lemma {:induction false} TraceStep(trace: seq<real>, time: real, t: real, T: real)
    requires TraceOk(trace, time, T) && time < T && time <= t
    ensures TraceOk(trace + [t], t, T)
  {
    var trace' := trace + [t];
    forall a, b | 0 <= a < b < |trace'|
      ensures trace'[a] <= trace'[b]
    {
      if b < |trace| {
        assert trace'[a] == trace[a] && trace'[b] == trace[b];
      } else {
        assert trace'[a] == trace[a] <= trace[|trace| - 1];
      }
    }
  }

  /** Once the clock has reached T > 0, some event was processed and the
      latest one lies at or after T. */
  lemma {:induction false} TraceReachesHorizon(trace: seq<real>, time: real, T: real)
    requires TraceOk(trace, time, T) && T <= time
    ensures T <= 0.0 ==> trace == []
    ensures 0.0 < T ==> trace != [] && T <= trace[|trace| - 1]
    ensures time == if trace == [] then 0.0 else trace[|trace| - 1]
  {
  }

  /** The statistics a philosopher collects, as a value: failed attempts,
      total eating time, the start of the current meal and the times of all
      its requests. */
  datatype Stats = Stats(failedAttempts: nat, eatingTime: real, startedAt: real, requests: seq<real>)

  /** Statistics that agree with the clock: requests are logged in strictly
      increasing order and none later than `clock`; eating time is
      non-negative and bounded by the clock, or, while `eating`, by the start
      of the current meal, which began at the latest request; and a request
      is counted as failed at most once. */
  predicate Settled(s: Stats, eating: bool, clock: real)
  {
    && 0.0 <= s.eatingTime
    && s.failedAttempts <= |s.requests|
    && Increasing(s.requests)
    && (s.requests != [] ==> s.requests[|s.requests| - 1] <= clock)
    && (eating ==> s.requests != [] && s.startedAt == s.requests[|s.requests| - 1] && s.eatingTime <= s.startedAt)
    && (!eating ==> s.eatingTime <= clock)
  }

  /** Settled statistics whose latest request lies before `due`, the time of
      the philosopher's pending event. */
  predicate StatsOk(s: Stats, eating: bool, due: real, clock: real)
  {
    Settled(s, eating, clock) && (s.requests != [] ==> s.requests[|s.requests| - 1] < due)
  }

  /** Whether each pending event is the end of a meal, that is, whether its
      philosopher is eating. */
  function Eating(pending: seq<Event>): seq<bool>
  {
    seq(|pending|, i requires 0 <= i < |pending| => pending[i].kind == Finish)
  }

  /** The run invariant on values, with `pending[i]` philosopher i's one
      pending event and `clock` the time of the last processed event: no
      pending event lies before the clock, each philosopher's statistics
      agree with the clock, and the chopsticks on the table are exactly those
      no eating philosopher holds. */
  predicate TableOk(free: seq<bool>, stats: seq<Stats>, pending: seq<Event>, clock: real)
  {
    && |stats| == |pending|
    && (forall i :: 0 <= i < |pending| ==>
          clock <= pending[i].time && StatsOk(stats[i], pending[i].kind == Finish, pending[i].time, clock))
    && Table.Consistent(free, Eating(pending))
  }

  /** What handling philosopher i's event of the given kind at time t does:
      the chopsticks afterwards, i's statistics afterwards, and the kind of
      i's follow-up event. */
  function Handle(free: seq<bool>, s: Stats, kind: EventType, i: nat, t: real): (r: (seq<bool>, Stats, EventType))
    requires i < |free|
    ensures |r.0| == |free|
    ensures r.2 == Finish <==> kind == Request && free[Left(i, |free|)] && free[Right(i, |free|)]
    ensures r.1.failedAttempts == if kind == Request && r.2 == Request then s.failedAttempts + 1 else s.failedAttempts
  {
    match kind
    case Request =>
      if free[Left(i, |free|)] && free[Right(i, |free|)] then
        (Table.PickUpBoth(free, i), s.(startedAt := t, requests := s.requests + [t]), Finish)
      else
        (free, s.(failedAttempts := s.failedAttempts + 1, requests := s.requests + [t]), Request)
    case Finish =>
      (Table.PutDownBoth(free, i), s.(eatingTime := s.eatingTime + (t - s.startedAt)), Request)
  }

  /** Handling philosopher i's event touches only i's two chopsticks: every
      other chopstick keeps its state. */
  lemma {:induction false} HandleFrame(free: seq<bool>, s: Stats, kind: EventType, i: nat, t: real, c: nat)
    requires i < |free| && c < |free| && c != Left(i, |free|) && c != Right(i, |free|)
    ensures Handle(free, s, kind, i, t).0[c] == free[c]
  {
  }

  /** Every request is logged: handling a request appends its time to the
      philosopher's request log, and finishing a meal leaves the log as it
      was, so the log only ever grows at its end. */
  lemma {:induction false} HandleLogsRequests(free: seq<bool>, s: Stats, kind: EventType, i: nat, t: real)
    requires i < |free|
    ensures kind == Request ==> Handle(free, s, kind, i, t).1.requests == s.requests + [t]
    ensures kind == Finish ==> Handle(free, s, kind, i, t).1.requests == s.requests
    ensures s.requests <= Handle(free, s, kind, i, t).1.requests
  {
  }

  /** Every philosopher has made its first request, at time 0. */
  predicate Started(stats: seq<Stats>)
  {
    forall j :: 0 <= j < |stats| ==> stats[j].requests != [] && stats[j].requests[0] == 0.0
  }

  /** Handling an event keeps every philosopher's first request where it was. */
  lemma {:induction false} HandleKeepsStarted(free: seq<bool>, stats: seq<Stats>, kind: EventType, i: nat, t: real)
    requires i < |free| && i < |stats|
    ensures Started(stats) ==> Started(stats[i := Handle(free, stats[i], kind, i, t).1])
  {
    HandleLogsRequests(free, stats[i], kind, i, t);
    if stats[i].requests != [] {
      var r := Handle(free, stats[i], kind, i, t).1.requests;
      assert r[0] == stats[i].requests[0];
    }
  }

  /** The chopsticks, the statistics and the follow-up kinds after seats
      0 .. k - 1 of n have each been asked once at time 0, in seat order,
      starting from all chopsticks on the table and nobody having asked. */
  function SeedSpec(n: nat, k: nat): (r: (seq<bool>, seq<Stats>, seq<EventType>))
    requires k <= n
    ensures |r.0| == n && |r.1| == n && |r.2| == k
  {
    if k == 0 then (seq(n, _ => true), seq(n, _ => Stats(0, 0.0, 0.0, [])), [])
    else
      var prev := SeedSpec(n, k - 1);
      var h := Handle(prev.0, prev.1[k - 1], Request, k - 1, 0.0);
      (h.0, prev.1[k - 1 := h.1], prev.2 + [h.2])
  }

  /** Whether seat j of n gets both chopsticks when asked at time 0: every
      second seat from seat 0 does, except the last of two or more seats,
      whose right chopstick seat 0 already holds. */
  predicate SeedWinner(j: nat, n: nat)
  {
    j % 2 == 0 && (j + 1 < n || n == 1)
  }

  /** Whether chopstick c of n is held once seats 0 .. k - 1 have been
      asked at time 0: a winner among them sits on either side of it. */
  predicate SeedHeld(c: nat, k: nat, n: nat)
  {
    (c < k && SeedWinner(c, n)) || (0 < c && c - 1 < k && SeedWinner(c - 1, n))
  }

  /** Seat j's statistics once seats 0 .. k - 1 have been asked at time 0. */
  function SeedStats(j: nat, k: nat, n: nat): Stats
  {
    if j < k then Stats(if SeedWinner(j, n) then 0 else 1, 0.0, 0.0, [0.0])
    else Stats(0, 0.0, 0.0, [])
  }

  /** The table after seats 0 .. k - 1 of n have been asked at time 0:
      a chopstick is free exactly when no winner sits next to it. */
  predicate SeedFree(free: seq<bool>, k: nat)
  {
    forall c :: 0 <= c < |free| ==> (free[c] <==> !SeedHeld(c, k, |free|))
  }

  /** The statistics after seats 0 .. k - 1 have been asked at time 0. */
  predicate SeedStatsAll(stats: seq<Stats>, k: nat)
  {
    forall j :: 0 <= j < |stats| ==> stats[j] == SeedStats(j, k, |stats|)
  }

  /** Asking seat i at time 0, after seats 0 .. i - 1: seat i wins exactly
      when it is a seed winner, and the table and the statistics move on to
      their closed form for i + 1 seats. */
  lemma {:induction false} SeedAskStep(free: seq<bool>, stats: seq<Stats>, i: nat)
    requires i < |free| == |stats|
    requires SeedFree(free, i)
    requires SeedStatsAll(stats, i)
    ensures var h := Handle(free, stats[i], Request, i, 0.0);
            && (h.2 == Finish <==> SeedWinner(i, |free|))
            && SeedFree(h.0, i + 1)
            && SeedStatsAll(stats[i := h.1], i + 1)
  {
    var n := |free|;
    var won := free[Left(i, n)] && free[Right(i, n)];
    assert free[i] <==> !(0 < i && SeedWinner(i - 1, n));
    if i + 1 < n {
      assert Right(i, n) == i + 1;
      assert free[i + 1] by { assert !SeedHeld(i + 1, i, n); }
      if 0 < i {
        assert SeedWinner(i - 1, n) <==> (i - 1) % 2 == 0;
        assert (i - 1) % 2 == 0 <==> i % 2 != 0;
      }
    } else if n == 1 {
      assert won;
    } else {
      assert Right(i, n) == 0 && SeedWinner(0, n);
      assert !free[0] by { assert SeedHeld(0, i, n); }
    }
    assert won <==> SeedWinner(i, n);
    var h := Handle(free, stats[i], Request, i, 0.0);
    forall c | 0 <= c < n
      ensures h.0[c] <==> !SeedHeld(c, i + 1, n)
    {
      if won {
        assert h.0[c] == (free[c] && c != Left(i, n) && c != Right(i, n));
      }
    }
  }

  /** Once every seat has been asked at time 0, every philosopher has
      logged exactly one request, at 0, and so has started. */
  lemma {:induction false} SeededStarted(stats: seq<Stats>)
    requires SeedStatsAll(stats, |stats|)
    ensures Started(stats)
    ensures forall j :: 0 <= j < |stats| ==> stats[j].requests == [0.0]
  {
    forall j | 0 <= j < |stats|
      ensures stats[j].requests == [0.0]
    {
      assert stats[j] == SeedStats(j, |stats|, |stats|);
    }
  }

  /** Seeding in seat order is deterministic: after seats 0 .. k - 1 have
      been asked, exactly the winners among them eat (a FINISH follows),
      every other asked seat has one failed attempt, each asked seat has
      logged one request at 0, and a chopstick is held exactly when a
      winner sits next to it. */
  lemma {:induction false} SeedSpecPattern(n: nat, k: nat)
    requires k <= n
    ensures forall j :: 0 <= j < k ==> (SeedSpec(n, k).2[j] == Finish <==> SeedWinner(j, n))
    ensures SeedStatsAll(SeedSpec(n, k).1, k)
    ensures SeedFree(SeedSpec(n, k).0, k)
  {
    if k > 0 {
      SeedSpecPattern(n, k - 1);
      var prev := SeedSpec(n, k - 1);
      SeedAskStep(prev.0, prev.1, k - 1);
    }
  }

  /** A table in the closed form after all n seats asked is exactly the
      table the seeding fold leaves, and the kinds asked are the fold's. */
  lemma {:induction false} SeedIsSpec(free: seq<bool>, stats: seq<Stats>, pending: seq<Event>)
    requires |free| == |stats| == |pending|
    requires SeedFree(free, |free|) && SeedStatsAll(stats, |free|)
    requires forall j :: 0 <= j < |pending| ==> (pending[j].kind == Finish <==> SeedWinner(j, |free|))
    ensures var r := SeedSpec(|free|, |free|);
            && free == r.0 && stats == r.1
            && forall j :: 0 <= j < |pending| ==> pending[j].kind == r.2[j]
  {
    var n := |free|;
    var r := SeedSpec(n, n);
    SeedSpecPattern(n, n);
    assert free == r.0 by {
      forall c | 0 <= c < n ensures free[c] == r.0[c] { }
    }
    assert stats == r.1 by {
      forall j | 0 <= j < n ensures stats[j] == r.1[j] { }
    }
  }

  /** Replacing the i-th of the events seeded so far extends their prefix. */
  lemma {:induction false} PrefixReplace(pending: seq<Event>, i: nat, e: Event)
    requires i < |pending|
    ensures multiset(pending[i := e][..i + 1]) == multiset(pending[..i]) + multiset{e}
  {
    assert pending[i := e][..i + 1] == pending[..i] + [e];
  }

  /** Replacing the i-th pending event by `e` in the heap as a multiset. */
  lemma {:induction false} ReplaceInMultiset(pending: seq<Event>, i: nat, e: Event)
    requires i < |pending|
    ensures multiset(pending) - multiset{pending[i]} + multiset{e} == multiset(pending[i := e])
  {
    var p' := pending[i := e];
    assert pending == pending[..i] + [pending[i]] + pending[i + 1..];
    assert p' == pending[..i] + [e] + pending[i + 1..];
  }

  /** A later clock keeps statistics settled. */
  lemma {:induction false} LaterClockKeepsOk(s: Stats, eating: bool, due: real, clock: real, clock': real)
    requires StatsOk(s, eating, due, clock) && clock <= clock'
    ensures StatsOk(s, eating, due, clock')
  {
  }

  /** A request at time t by a waiting philosopher whose statistics agree with
      the clock leaves them agreeing with the clock moved to t, whether the
      request succeeds or fails, whatever the follow-up's later `due` time. */
  lemma {:induction false} RequestKeepsOk(s: Stats, clock: real, t: real, due: real)
    requires StatsOk(s, false, t, clock) && clock <= t < due
    ensures StatsOk(s.(startedAt := t, requests := s.requests + [t]), true, due, t)
    ensures StatsOk(s.(failedAttempts := s.failedAttempts + 1, requests := s.requests + [t]), false, due, t)
  {
    var r := s.requests + [t];
    forall a, b | 0 <= a < b < |r|
      ensures r[a] < r[b]
    {
      if b < |s.requests| {
        assert r[a] == s.requests[a] && r[b] == s.requests[b];
      } else {
        assert r[a] == s.requests[a] <= s.requests[|s.requests| - 1];
      }
    }
  }

  /** The end of a meal at time t leaves the statistics agreeing with the
      clock moved to t: the meal lasted t - startedAt >= 0. */
  lemma {:induction false} FinishKeepsOk(s: Stats, clock: real, t: real, due: real)
    requires StatsOk(s, true, t, clock) && clock <= t < due
    ensures StatsOk(s.(eatingTime := s.eatingTime + (t - s.startedAt)), false, due, t)
  {
  }

  /** Handling the earliest pending event keeps the run invariant, with the
      clock moved to that event's time: mutual exclusion and the statistics
      bounds survive every step of the loop. */
  lemma {:induction false} HandleKeepsTableOk(free: seq<bool>, stats: seq<Stats>, pending: seq<Event>,
                                               clock: real, i: nat, next: Event)
    requires TableOk(free, stats, pending, clock) && i < |pending|
    requires forall j :: 0 <= j < |pending| ==> pending[i].time <= pending[j].time
    requires pending[i].time < next.time
    requires next.kind == Handle(free, stats[i], pending[i].kind, i, pending[i].time).2
    ensures var h := Handle(free, stats[i], pending[i].kind, i, pending[i].time);
            TableOk(h.0, stats[i := h.1], pending[i := next], pending[i].time)
  {
    var n, t := |pending|, pending[i].time;
    var h := Handle(free, stats[i], pending[i].kind, i, t);
    var pending' := pending[i := next];
    var eating := Eating(pending);
    assert Eating(pending') == eating[i := next.kind == Finish];
    match pending[i].kind {
      case Request =>
        RequestKeepsOk(stats[i], clock, t, next.time);
        if h.2 == Finish {
          Table.PickUpKeepsConsistent(free, eating, i);
        } else {
          assert eating[i := false] == eating;
        }
      case Finish =>
        FinishKeepsOk(stats[i], clock, t, next.time);
        Table.PutDownKeepsConsistent(free, eating, i);
    }
    forall j | 0 <= j < n && j != i
      ensures StatsOk(stats[j], pending[j].kind == Finish, pending[j].time, t)
    {
      LaterClockKeepsOk(stats[j], pending[j].kind == Finish, pending[j].time, clock, t);
    }
  }

  /** A snapshot of the run on values: the table, every philosopher's
      statistics, every philosopher's one pending event and the clock. */
  datatype SimState = SimState(free: seq<bool>, stats: seq<Stats>, pending: seq<Event>, clock: real)

  /** The run invariant of a snapshot. */
  predicate StateOk(s: SimState)
  {
    TableOk(s.free, s.stats, s.pending, s.clock)
  }

  /** One turn of the event loop on values: philosopher i's pending event is
      one of the earliest, the clock moves forward to it, it is handled as
      Handle says, and it is replaced by its follow-up, drawn with `sample`
      at the rate the follow-up's kind names. */
  predicate Turn(a: SimState, b: SimState, i: nat, sample: real)
  {
    && i < |a.pending| && i < |a.free| && i < |a.stats|
    && (forall j :: 0 <= j < |a.pending| ==> a.pending[i].time <= a.pending[j].time)
    && a.clock <= a.pending[i].time == b.clock
    && var p, h := a.pending[i].philosopher, Handle(a.free, a.stats[i], a.pending[i].kind, i, b.clock);
       && 0.0 < Rate(p, h.2)
       && b.free == h.0 && b.stats == a.stats[i := h.1]
       && b.pending == a.pending[i := Event(p, b.clock + Expovariate(sample, Rate(p, h.2)), h.2)]
  }

  /** The parts of a turn put together: the earliest event handled at its
      time and replaced by a follow-up of the kind Handle names, drawn at the
      rate that kind names. */
  lemma {:induction false} TurnIntro(a: SimState, b: SimState, i: nat, sample: real, next: Event)
    requires i < |a.pending| && i < |a.free| && i < |a.stats|
    requires forall j :: 0 <= j < |a.pending| ==> a.pending[i].time <= a.pending[j].time
    requires a.clock <= a.pending[i].time == b.clock
    requires var h := Handle(a.free, a.stats[i], a.pending[i].kind, i, b.clock);
             b.free == h.0 && b.stats == a.stats[i := h.1] && next.kind == h.2
    requires next.philosopher == a.pending[i].philosopher && 0.0 < Rate(next.philosopher, next.kind)
    requires next.time == b.clock + Expovariate(sample, Rate(next.philosopher, next.kind))
    requires b.pending == a.pending[i := next]
    ensures Turn(a, b, i, sample)
  {
    assert next == Event(next.philosopher, next.time, next.kind);
  }

  /** `history` is a run of the event loop: each snapshot follows from the
      one before by one turn, turn k handling philosopher `turns[k]`'s event
      with draw `samples(offset + k)`. */
  predicate Chain(history: seq<SimState>, turns: seq<nat>, samples: nat -> real, offset: nat)
  {
    && |history| == |turns| + 1
    && forall k {:trigger turns[k]} :: 0 <= k < |turns| ==> Turn(history[k], history[k + 1], turns[k], samples(offset + k))
  }

  /** A turn with a positive draw keeps the run invariant. */
  lemma {:induction false} TurnKeepsOk(a: SimState, b: SimState, i: nat, sample: real)
    requires StateOk(a) && Turn(a, b, i, sample) && 0.0 < sample
    ensures StateOk(b)
  {
    HandleKeepsTableOk(a.free, a.stats, a.pending, a.clock, i, b.pending[i]);
  }

  /** Every snapshot of a run with positive draws that starts in the run
      invariant keeps it, and the clock never goes back. */
  lemma {:induction false} ChainKeepsOk(history: seq<SimState>, turns: seq<nat>, samples: nat -> real, offset: nat)
    requires Chain(history, turns, samples, offset) && StateOk(history[0])
    requires forall k :: 0.0 < samples(k)
    ensures forall k :: 0 <= k < |history| ==> StateOk(history[k])
    ensures forall k :: 0 <= k < |turns| ==> history[k].clock <= history[k + 1].clock
  {
    if turns != [] {
      var m := |turns| - 1;
      assert Chain(history[..m + 1], turns[..m], samples, offset) by {
        forall k | 0 <= k < m
          ensures Turn(history[..m + 1][k], history[..m + 1][k + 1], turns[..m][k], samples(offset + k))
        {
          assert Turn(history[k], history[k + 1], turns[k], samples(offset + k));
        }
      }
      ChainKeepsOk(history[..m + 1], turns[..m], samples, offset);
      assert StateOk(history[..m + 1][m]);
      assert Turn(history[m], history[m + 1], turns[m], samples(offset + m));
      TurnKeepsOk(history[m], history[m + 1], turns[m], samples(offset + m));
      forall k | 0 <= k < |history|
        ensures StateOk(history[k])
      {
        if k <= m {
          assert StateOk(history[..m + 1][k]);
        }
      }
    }
  }

  /** `history` is a run of the event loop whose processed event times are
      `trace`: turn m moved the clock to `trace[m]`. */
  predicate Recorded(history: seq<SimState>, turns: seq<nat>, trace: seq<real>, samples: nat -> real, offset: nat)
  {
    && Chain(history, turns, samples, offset) && |turns| == |trace|
    && forall m {:trigger trace[m]} :: 0 <= m < |trace| ==> trace[m] == history[m + 1].clock
  }

  /** A run extended by one more turn from its last snapshot, with the next
      draw, is still a run, and its trace grows by the new clock. */
  lemma {:induction false} RecordExtend(history: seq<SimState>, turns: seq<nat>, trace: seq<real>,
                                        samples: nat -> real, offset: nat,
                                        last: SimState, s: SimState, i: nat, draw: nat, sample: real)
    requires Recorded(history, turns, trace, samples, offset)
    requires history[|turns|] == last && draw == offset + |turns| && sample == samples(draw)
    requires Turn(last, s, i, sample)
    ensures Recorded(history + [s], turns + [i], trace + [s.clock], samples, offset)
    ensures (history + [s])[0] == history[0] && (history + [s])[|turns| + 1] == s
  {
    var h', t' := history + [s], turns + [i];
    forall k | 0 <= k < |t'|
      ensures Turn(h'[k], h'[k + 1], t'[k], samples(offset + k))
    {
      if k < |turns| {
        assert Turn(history[k], history[k + 1], turns[k], samples(offset + k));
      }
    }
  }

  /** What the run invariant says at the end: the chopsticks agree with who
      is eating, and everyone's statistics agree with the clock. */
  lemma {:induction false} TableOkSettles(free: seq<bool>, stats: seq<Stats>, pending: seq<Event>, clock: real)
    requires TableOk(free, stats, pending, clock)
    ensures Table.Consistent(free, Eating(pending))
    ensures forall i :: 0 <= i < |pending| ==> Settled(stats[i], Eating(pending)[i], clock)
  {
    forall i | 0 <= i < |pending|
      ensures Settled(stats[i], Eating(pending)[i], clock)
    {
      assert StatsOk(stats[i], pending[i].kind == Finish, pending[i].time, clock);
    }
  }

  /** The termination measure of the event loop, as a value: philosopher j
      has had `handled[j]` events processed before the horizon, no more than
      `bound`, and its pending event lies at least that many shortest delays
      after time 0. */
  predicate Budgeted(handled: seq<nat>, pending: seq<Event>, step: real, bound: nat)
  {
    && |handled| == |pending|
    && forall j :: 0 <= j < |pending| ==>
         handled[j] <= bound && Horizon.Reach(handled[j], step) <= pending[j].time
  }

  /** Processing philosopher i's earliest event, before the horizon, uses up
      one unit of its budget and the follow-up is at least one shortest delay
      later. */
  lemma {:induction false} BudgetedStep(handled: seq<nat>, pending: seq<Event>, step: real, bound: nat,
                                        i: nat, next: Event, T: real)
    requires Budgeted(handled, pending, step, bound) && i < |pending|
    requires 0.0 < step && T <= Horizon.Reach(bound, step) && pending[i].time < T
    requires pending[i].time + step <= next.time
    ensures handled[i] < bound
    ensures Budgeted(handled[i := handled[i] + 1], pending[i := next], step, bound)
    ensures Horizon.Slack(handled[i := handled[i] + 1], bound) < Horizon.Slack(handled, bound)
  {
    Horizon.BelowHorizon(handled[i], step, pending[i].time, T, bound);
    Horizon.SlackStep(handled, bound, i);
  }

  /** A follow-up event no earlier than the event it replaces keeps the
      budget. */
  lemma {:induction false} BudgetedLater(handled: seq<nat>, pending: seq<Event>, step: real, bound: nat,
                                         i: nat, next: Event)
    requires Budgeted(handled, pending, step, bound) && i < |pending|
    requires pending[i].time <= next.time
    ensures Budgeted(handled, pending[i := next], step, bound)
  {
  }

  /** A chopstick: either on the table (free) or in a philosopher's hand. */
  class Chopstick {
    var isFree: bool

    constructor ()
      ensures isFree
    {
      isFree := true;
    }

    /** Take the chopstick; the caller has checked that it was free. */
    method PickUp()
      modifies this
      ensures !isFree
    {
      isFree := false;
    }

    /** Put the chopstick back on the table. */
    method PutDown()
      modifies this
      ensures isFree
    {
      isFree := true;
    }
  }

  /** A philosopher with a service rate `mi` (how fast it eats), a request rate
      `lambda` (how soon it asks again), its two chopsticks, and its
      statistics. */
  class Philosopher {
    const mi: real
    const lambda: real
    const left: Chopstick
    const right: Chopstick
    var failedAttempts: nat
    var eatingTime: real
    var startedAt: real
    var requests: seq<real>

    constructor (mi: real, lambda: real, left: Chopstick, right: Chopstick)
      ensures this.mi == mi && this.lambda == lambda
      ensures this.left == left && this.right == right
      ensures Statistics() == Stats(0, 0.0, 0.0, [])
    {
      this.mi := mi;
      this.lambda := lambda;
      this.left := left;
      this.right := right;
      failedAttempts := 0;
      eatingTime := 0.0;
      startedAt := 0.0;
      requests := [];
    }

    /** The statistics as a value. */
    ghost function Statistics(): Stats
      reads this
    {
      Stats(failedAttempts, eatingTime, startedAt, requests)
    }

    /** Log the request; if both chopsticks are free, pick them up, start the
        meal and schedule its end, otherwise count a failed attempt and
        schedule a retry. */
    method Request(time: real, sample: real) returns (e: Event)
      requires 0.0 < mi && 0.0 < lambda
      modifies this, left, right
      ensures requests == old(requests) + [time]
      ensures eatingTime == old(eatingTime)
      ensures old(left.isFree && right.isFree) ==>
                && !left.isFree && !right.isFree
                && startedAt == time
                && failedAttempts == old(failedAttempts)
                && e == Event(this, time + Expovariate(sample, mi), EventType.Finish)
      ensures !old(left.isFree && right.isFree) ==>
                && left.isFree == old(left.isFree) && right.isFree == old(right.isFree)
                && startedAt == old(startedAt)
                && failedAttempts == old(failedAttempts) + 1
                && e == Event(this, time + Expovariate(sample, lambda), EventType.Request)
    {
      requests := requests + [time];
      if left.isFree && right.isFree {
        left.PickUp();
        right.PickUp();
        startedAt := time;
        e := Event(this, time + Expovariate(sample, mi), EventType.Finish);
      } else {
        failedAttempts := failedAttempts + 1;
        e := Event(this, time + Expovariate(sample, lambda), EventType.Request);
      }
    }

    /** Put both chopsticks down, add the length of the meal to the eating
        time and schedule the next request. */
    method Finish(time: real, sample: real) returns (e: Event)
      requires 0.0 < lambda
      modifies this, left, right
      ensures left.isFree && right.isFree
      ensures eatingTime == old(eatingTime) + (time - old(startedAt))
      ensures failedAttempts == old(failedAttempts) && startedAt == old(startedAt)
      ensures requests == old(requests)
      ensures e == Event(this, time + Expovariate(sample, lambda), EventType.Request)
    {
      left.PutDown();
      right.PutDown();
      eatingTime := eatingTime + (time - startedAt);
      e := Event(this, time + Expovariate(sample, lambda), EventType.Request);
    }
  }

  /** The largest rate at the table (at least 1), which bounds how short a
      delay can be. */
  function MaxRate(ps: seq<Philosopher>): (r: real)
    ensures 1.0 <= r
    ensures forall i :: 0 <= i < |ps| ==> ps[i].mi <= r && ps[i].lambda <= r
  {
    if ps == [] then 1.0
    else
      var rest := MaxRate(ps[1..]);
      var m := if ps[0].mi <= rest then rest else ps[0].mi;
      if ps[0].lambda <= m then m else ps[0].lambda
  }

  /** The simulation: the philosophers around the table, their chopsticks,
      the horizon T and the heap of pending events. */
  class Simulation {
    const T: real
    const philosophers: seq<Philosopher>
    ghost const chopsticks: seq<Chopstick>
    var events: multiset<Event>

    /** The ring: distinct philosophers and chopsticks, philosopher i holding
        chopstick i on the left and chopstick (i + 1) mod n on the right. */
    ghost predicate Valid()
    {
      var n := |philosophers|;
      && |chopsticks| == n
      && (forall i, j :: 0 <= i < j < n ==> philosophers[i] != philosophers[j])
      && (forall i, j :: 0 <= i < j < n ==> chopsticks[i] != chopsticks[j])
      && (forall i :: 0 <= i < n ==>
            && philosophers[i].left == chopsticks[Left(i, n)]
            && philosophers[i].right == chopsticks[Right(i, n)])
    }

    /** Every rate is positive, so that every delay can be drawn. */
    ghost predicate PositiveRates()
    {
      forall i :: 0 <= i < |philosophers| ==> 0.0 < philosophers[i].mi && 0.0 < philosophers[i].lambda
    }

    /** Which chopsticks lie on the table. */
    ghost function Free(): seq<bool>
      reads chopsticks
    {
      seq(|chopsticks|, c requires 0 <= c < |chopsticks| reads chopsticks => chopsticks[c].isFree)
    }

    /** Every philosopher's statistics. */
    ghost function Snapshot(): seq<Stats>
      reads philosophers
    {
      seq(|philosophers|, i requires 0 <= i < |philosophers| reads philosophers => philosophers[i].Statistics())
    }

    /** The state right after construction: all chopsticks on the table, no
        events, and nobody has asked yet. */
    ghost predicate Initial()
      reads this, philosophers, chopsticks
    {
      && events == multiset{}
      && Free() == seq(|chopsticks|, _ => true)
      && Snapshot() == seq(|philosophers|, _ => Stats(0, 0.0, 0.0, []))
    }

    /** The run invariant on the objects: `pending[i]` is philosopher i's
        event and the chopsticks, the statistics and the pending events agree
        as TableOk says. */
    ghost predicate Inv(pending: seq<Event>, clock: real)
      reads philosophers, chopsticks
    {
      && Valid()
      && PositiveRates()
      && |pending| == |philosophers|
      && (forall i :: 0 <= i < |pending| ==> pending[i].philosopher == philosophers[i])
      && TableOk(Free(), Snapshot(), pending, clock)
    }

    /** Only philosopher i and the chopsticks in its hands changed. */
    twostate lemma OnlyChanged(i: nat)
      requires Valid() && i < |philosophers|
      requires forall j :: 0 <= j < |philosophers| && j != i ==> unchanged(philosophers[j])
      requires forall c :: 0 <= c < |chopsticks| && c != Left(i, |chopsticks|) && c != Right(i, |chopsticks|) ==>
                 unchanged(chopsticks[c])
      ensures Snapshot() == old(Snapshot())[i := philosophers[i].Statistics()]
      ensures var n := |chopsticks|;
              Free() == old(Free())[Left(i, n) := chopsticks[Left(i, n)].isFree][Right(i, n) := chopsticks[Right(i, n)].isFree]
    {
    }

    /** Wire n philosophers, with service rate `mi` and request rates
        `lambdas`, into a ring over n new chopsticks. */
    constructor (mi: real, T: real, lambdas: seq<real>)
      ensures Valid() && Initial()
      ensures this.T == T && |philosophers| == |lambdas|
      ensures forall i :: 0 <= i < |lambdas| ==>
                philosophers[i].mi == mi && philosophers[i].lambda == lambdas[i]
      ensures fresh(philosophers) && fresh(chopsticks)
    {
      var n := |lambdas|;
      var cs: seq<Chopstick> := [];
      for i := 0 to n
        invariant |cs| == i && fresh(cs)
        invariant forall j, k :: 0 <= j < k < i ==> cs[j] != cs[k]
        invariant forall j :: 0 <= j < i ==> cs[j].isFree
      {
        var c := new Chopstick();
        cs := cs + [c];
      }
      var ps: seq<Philosopher> := [];
      for i := 0 to n
        invariant |ps| == i && fresh(ps)
        invariant forall j, k :: 0 <= j < k < i ==> ps[j] != ps[k]
        invariant forall j :: 0 <= j < i ==>
                    && ps[j].left == cs[Left(j, n)] && ps[j].right == cs[Right(j, n)]
                    && ps[j].mi == mi && ps[j].lambda == lambdas[j]
                    && ps[j].Statistics() == Stats(0, 0.0, 0.0, [])
        invariant forall j :: 0 <= j < n ==> cs[j].isFree
      {
        var p := new Philosopher(mi, lambdas[i], cs[Left(i, n)], cs[Right(i, n)]);
        ps := ps + [p];
      }
      this.T := T;
      philosophers := ps;
      chopsticks := cs;
      events := multiset{};
    }

    /** heapq.heappop: remove and return an event that no other pending event
        precedes (which of several tied events is left open); with the heap
        holding `pending`, the event is some `pending[i]`. */
    method PopEarliest(ghost pending: seq<Event>) returns (e: Event, ghost i: nat)
      requires events == multiset(pending) && events != multiset{}
      modifies this`events
      ensures Earliest(e, old(events))
      ensures events == old(events) - multiset{e}
      ensures Free() == old(Free()) && Snapshot() == old(Snapshot())
      ensures i < |pending| && e == pending[i]
      ensures forall j :: 0 <= j < |pending| ==> e.time <= pending[j].time
    {
      EarliestExists(events);
      e :| Earliest(e, events);
      events := events - multiset{e};
      assert e in multiset(pending);
      i :| 0 <= i < |pending| && pending[i] == e;
      forall j | 0 <= j < |pending|
        ensures e.time <= pending[j].time
      {
        assert pending[j] in multiset(pending);
      }
    }

    /** heapq.heappush: add event e to the pending events. */
    method Push(e: Event)
      modifies this`events
      ensures events == old(events) + multiset{e}
      ensures Free() == old(Free()) && Snapshot() == old(Snapshot())
    {
      events := events + multiset{e};
    }

    /** Drop all pending events. */
    method Clear()
      modifies this`events
      ensures events == multiset{}
      ensures Free() == old(Free()) && Snapshot() == old(Snapshot())
    {
      events := multiset{};
    }

    /** Hand event e, taking place at e.time, to the handler its kind names
        and return the follow-up event; `i` is the seat of e's philosopher. */
    method Dispatch(e: Event, sample: real, ghost i: nat) returns (next: Event)
      requires Valid() && PositiveRates() && i < |philosophers| && e.philosopher == philosophers[i]
      modifies e.philosopher, e.philosopher.left, e.philosopher.right
      ensures var h := Handle(old(Free()), old(Snapshot())[i], e.kind, i, e.time);
              Free() == h.0 && Snapshot() == old(Snapshot())[i := h.1] && next.kind == h.2
      ensures next.philosopher == e.philosopher
      ensures next.time == e.time + Expovariate(sample, if next.kind == Finish then e.philosopher.mi else e.philosopher.lambda)
    {
      var n := |philosophers|;
      var p := e.philosopher;
      assert p.left == chopsticks[Left(i, n)] && p.right == chopsticks[Right(i, n)];
      assert 0.0 < p.mi && 0.0 < p.lambda;
      match e.kind {
        case Request =>
          next := p.Request(e.time, sample);
        case Finish =>
          next := p.Finish(e.time, sample);
      }
      OnlyChanged(i);
    }

    /** The event philosopher j counts as having pending before it is first
        asked: a request at time 0. */
    ghost function FirstAsk(j: nat): Event
      requires j < |philosophers|
    {
      Event(philosophers[j], 0.0, EventType.Request)
    }

    /** Seeding has asked seats 0 .. i - 1 at time 0, in seat order, seat j
        using draw `samples(j)`: their follow-ups are in the heap, the others
        still count as having a request at time 0 pending, and the table,
        the statistics and the follow-up kinds are in their closed form. */
    ghost predicate SeededTo(pending: seq<Event>, i: nat, samples: nat -> real)
      reads this, philosophers, chopsticks
    {
      && Inv(pending, 0.0) && i <= |pending|
      && events == multiset(pending[..i])
      && (forall j :: i <= j < |pending| ==> pending[j] == FirstAsk(j))
      && SeedFree(Free(), i)
      && SeedStatsAll(Snapshot(), i)
      && (forall j :: 0 <= j < i ==>
            && (pending[j].kind == Finish <==> SeedWinner(j, |pending|))
            && pending[j].time == Expovariate(samples(j), Rate(pending[j].philosopher, pending[j].kind)))
    }

    /** Ask philosopher i for chopsticks at time 0, with draw `samples(i)`,
        and push the follow-up event, after the philosophers before it have
        been asked: seeding moves on by one seat. */
    method AskAtStart(ghost pending: seq<Event>, i: nat, samples: nat -> real) returns (ghost pending': seq<Event>)
      requires SeededTo(pending, i, samples) && i < |pending| && 0.0 < samples(i)
      modifies this`events, philosophers, chopsticks
      ensures SeededTo(pending', i + 1, samples)
      ensures |pending'| == |pending| && pending' == pending[i := pending'[i]]
    {
      ghost var free, stats := Free(), Snapshot();
      var next := Serve(pending, 0.0, Event(philosophers[i], 0.0, EventType.Request), samples(i), i);
      SeedAskStep(free, stats, i);
      PrefixReplace(pending, i, next);
      pending' := pending[i := next];
    }

    /** Seed the run: ask every philosopher, in seat order, for chopsticks at
        time 0 and push each follow-up event; philosopher j uses draw
        `samples(j)`. Exactly the seed winners get both chopsticks and have
        a FINISH pending; every other philosopher has one failed attempt and
        a REQUEST pending; every philosopher has logged one request, at 0.
        Asking at time 0 is handling a request event at time 0, so the not
        yet asked philosophers count as having that event pending. */
    method Seed(samples: nat -> real) returns (ghost pending: seq<Event>)
      requires Valid() && PositiveRates() && Initial()
      requires forall k :: 0.0 < samples(k)
      modifies this`events, philosophers, chopsticks
      ensures Inv(pending, 0.0) && events == multiset(pending)
      ensures SeedFree(Free(), |pending|)
      ensures SeedStatsAll(Snapshot(), |pending|)
      ensures forall j :: 0 <= j < |pending| ==>
                && (pending[j].kind == Finish <==> SeedWinner(j, |pending|))
                && pending[j].time == Expovariate(samples(j), Rate(pending[j].philosopher, pending[j].kind))
      ensures Started(Snapshot())
      ensures var r := SeedSpec(|pending|, |pending|);
              && Free() == r.0 && Snapshot() == r.1
              && forall j :: 0 <= j < |pending| ==> pending[j].kind == r.2[j]
    {
      var n := |philosophers|;
      pending := seq(n, j requires 0 <= j < n => FirstAsk(j));
      SeedingStarts(pending, samples);
      for i := 0 to n
        invariant SeededTo(pending, i, samples) && |pending| == n
      {
        pending := AskAtStart(pending, i, samples);
      }
      SeedingDone(pending, samples);
    }

    /** Before anyone has asked, the untouched table is seeded up to seat 0. */
    lemma SeedingStarts(pending: seq<Event>, samples: nat -> real)
      requires Valid() && PositiveRates() && Initial()
      requires pending == seq(|philosophers|, j requires 0 <= j < |philosophers| => FirstAsk(j))
      ensures SeededTo(pending, 0, samples)
    {
      Table.EmptyTableConsistent(|philosophers|);
      assert Eating(pending) == seq(|philosophers|, _ => false);
    }

    /** Once every seat has asked, the whole queue is in the heap and everyone
        has logged a request at time 0. */
    lemma SeedingDone(pending: seq<Event>, samples: nat -> real)
      requires SeededTo(pending, |pending|, samples)
      ensures Inv(pending, 0.0) && events == multiset(pending)
      ensures SeedFree(Free(), |pending|) && SeedStatsAll(Snapshot(), |pending|)
      ensures forall j :: 0 <= j < |pending| ==>
                && (pending[j].kind == Finish <==> SeedWinner(j, |pending|))
                && pending[j].time == Expovariate(samples(j), Rate(pending[j].philosopher, pending[j].kind))
      ensures Started(Snapshot())
      ensures var r := SeedSpec(|pending|, |pending|);
              && Free() == r.0 && Snapshot() == r.1
              && forall j :: 0 <= j < |pending| ==> pending[j].kind == r.2[j]
    {
      assert pending[..|pending|] == pending;
      SeededStarted(Snapshot());
      SeedIsSpec(Free(), Snapshot(), pending);
    }

    /** Dispatch the earliest pending event e, philosopher i's, with the clock
        moving from `clock` to e.time, and push its follow-up: the table,
        i's statistics and the follow-up's kind are as Handle says, and the
        run invariant holds again with e replaced by the follow-up. */
    method Serve(ghost pending: seq<Event>, ghost clock: real, e: Event, sample: real, ghost i: nat)
      returns (next: Event)
      requires Inv(pending, clock) && i < |pending| && pending[i] == e
      requires forall j :: 0 <= j < |pending| ==> e.time <= pending[j].time
      requires 0.0 < sample
      modifies this`events, e.philosopher, e.philosopher.left, e.philosopher.right
      ensures Inv(pending[i := next], e.time)
      ensures events == old(events) + multiset{next}
      ensures next.philosopher == e.philosopher
      ensures next.time == e.time + Expovariate(sample, if next.kind == Finish then e.philosopher.mi else e.philosopher.lambda)
      ensures var h := Handle(old(Free()), old(Snapshot())[i], e.kind, i, e.time);
              Free() == h.0 && Snapshot() == old(Snapshot())[i := h.1] && next.kind == h.2
      ensures old(Started(Snapshot())) ==> Started(Snapshot())
    {
      ghost var free, stats := Free(), Snapshot();
      next := Dispatch(e, sample, i);
      HandleKeepsTableOk(free, stats, pending, clock, i, next);
      HandleKeepsStarted(free, stats, e.kind, i, e.time);
      Push(next);
    }

    /** One turn of the event loop, with `clock` the current time: pop the
        earliest event, move the clock to its time, dispatch it to its
        philosopher (who uses draw `sample`) and push the follow-up. */
    method Step(ghost pending: seq<Event>, ghost clock: real, sample: real)
      returns (time: real, ghost i: nat, ghost pending': seq<Event>)
      requires Inv(pending, clock) && events == multiset(pending) && 0 < |pending|
      requires Started(Snapshot())
      requires 0.0 < sample
      modifies this`events, philosophers, chopsticks
      ensures i < |pending| && time == pending[i].time && clock <= time
      ensures |pending'| == |pending| && pending' == pending[i := pending'[i]]
      ensures pending'[i].time == time + Expovariate(sample, Rate(philosophers[i], pending'[i].kind))
      ensures Turn(SimState(old(Free()), old(Snapshot()), pending, clock), SimState(Free(), Snapshot(), pending', time), i, sample)
      ensures Inv(pending', time) && events == multiset(pending')
      ensures Started(Snapshot())
    {
      ghost var free, stats := Free(), Snapshot();
      assert pending[0] in multiset(pending);
      var e;
      e, i := PopEarliest(pending);
      time := e.time;
      var next := Serve(pending, clock, e, sample, i);
      ReplaceInMultiset(pending, i, next);
      pending' := pending[i := next];
      TurnIntro(SimState(free, stats, pending, clock), SimState(Free(), Snapshot(), pending', time), i, sample, next);
    }

    /** The state of the event loop after |trace| turns, with the clock at
        `time`: the run invariant holds for the heap `pending`, the processed
        times are `trace`, `history` is the run so far, ending in the current
        objects, and each philosopher's processed events before T stay
        within the budget `bound` of shortest delays `step`. */
    ghost predicate Running(pending: seq<Event>, time: real, trace: seq<real>, history: seq<SimState>,
                            turns: seq<nat>, samples: nat -> real, handled: seq<nat>, step: real, bound: nat)
      reads this, philosophers, chopsticks
    {
      && Inv(pending, time) && events == multiset(pending) && Started(Snapshot())
      && TraceOk(trace, time, T)
      && Budgeted(handled, pending, step, bound)
      && Recorded(history, turns, trace, samples, |philosophers|) && |turns| == |trace|
      && history[|turns|] == SimState(Free(), Snapshot(), pending, time)
    }

    /** One turn of the event loop while the clock is below T, with draw
        `samples(k)`, k being |philosophers| + |trace|: the run grows by one turn, and
        either the event was before T and used up one unit of its
        philosopher's budget, or the clock has reached T. */
    method Advance(ghost pending: seq<Event>, time: real, ghost trace: seq<real>, ghost history: seq<SimState>,
                   ghost turns: seq<nat>, samples: nat -> real, k: nat, ghost handled: seq<nat>,
                   ghost floor: real, ghost step: real, ghost bound: nat)
      returns (t: real, ghost pending': seq<Event>, ghost trace': seq<real>, ghost history': seq<SimState>,
               ghost turns': seq<nat>, ghost handled': seq<nat>)
      requires Running(pending, time, trace, history, turns, samples, handled, step, bound) && time < T
      requires k == |philosophers| + |trace| && (0 < |philosophers| || T <= 0.0)
      requires 0.0 < floor && (forall k :: floor <= samples(k))
      requires step == ShortestDelay(floor, MaxRate(philosophers)) && T <= Horizon.Reach(bound, step)
      modifies this`events, philosophers, chopsticks
      ensures Running(pending', t, trace', history', turns', samples, handled', step, bound)
      ensures history'[0] == history[0] && trace' == trace + [t]
      ensures (forall j :: 0 <= j < |handled'| ==> handled'[j] <= bound)
      ensures t < T ==> Horizon.Slack(handled', bound) < Horizon.Slack(handled, bound)
      ensures T <= t ==> handled' == handled
    {
      var n := |philosophers|;
      var sample := samples(k);
      ghost var before := SimState(Free(), Snapshot(), pending, time);
      ghost var i: nat;
      t, i, pending' := Step(pending, time, sample);
      ghost var after := SimState(Free(), Snapshot(), pending', t);
      ExpovariateAtLeast(sample, Rate(philosophers[i], pending'[i].kind), floor, MaxRate(philosophers));
      RecordExtend(history, turns, trace, samples, n, before, after, i, k, sample);
      history', turns' := history + [after], turns + [i];
      if t < T {
        BudgetedStep(handled, pending, step, bound, i, pending'[i], T);
        handled' := handled[i := handled[i] + 1];
      } else {
        BudgetedLater(handled, pending, step, bound, i, pending'[i]);
        handled' := handled;
      }
      TraceStep(trace, time, t, T);
      trace' := trace + [t];
    }

    /** The event loop: take turns until the clock reaches T, starting from
        the seeded events `pending0` at time 0; turn m uses draw
        `samples(|philosophers| + m)`. `floor` is a positive lower bound on
        the draws, which makes the loop finite. `trace` lists the times of
        the processed events, `pending` the events left in the heap and
        `history` the run, turn m handling philosopher `turns[m]`'s event. */
    method EventLoop(ghost pending0: seq<Event>, samples: nat -> real, ghost floor: real)
      returns (time: real, ghost trace: seq<real>, ghost pending: seq<Event>,
               ghost history: seq<SimState>, ghost turns: seq<nat>)
      requires Inv(pending0, 0.0) && events == multiset(pending0) && Started(Snapshot())
      requires 0 < |philosophers| || T <= 0.0
      requires 0.0 < floor && forall k :: floor <= samples(k)
      modifies this`events, philosophers, chopsticks
      ensures Inv(pending, time) && events == multiset(pending) && Started(Snapshot())
      ensures TraceOk(trace, time, T) && T <= time
      ensures Recorded(history, turns, trace, samples, |philosophers|)
      ensures history[0] == SimState(old(Free()), old(Snapshot()), pending0, 0.0)
      ensures history[|turns|] == SimState(Free(), Snapshot(), pending, time)
    {
      var n := |philosophers|;
      time := 0.0;
      pending := pending0;
      ghost var step := ShortestDelay(floor, MaxRate(philosophers));
      ghost var bound := Horizon.Budget(T, step);
      ghost var handled: seq<nat> := seq(n, _ => 0);
      trace := [];
      ghost var start := SimState(Free(), Snapshot(), pending0, 0.0);
      history, turns := [start], [];
      var k := n;
      while time < T
        invariant Running(pending, time, trace, history, turns, samples, handled, step, bound)
        invariant history[0] == start && k == n + |trace|
        decreases Horizon.Slack(handled, bound), if time < T then 1 else 0
      {
        time, pending, trace, history, turns, handled :=
          Advance(pending, time, trace, history, turns, samples, k, handled, floor, step, bound);
        k := k + 1;
      }
    }

    /** Seed one request per philosopher at time 0, run the event loop until
        the clock reaches T, and drop the pending events. `samples(k)` is the
        k-th exponential draw and `floor` a positive lower bound on the
        draws. `trace` lists the times of the processed events, `eating` who
        was eating at the end, and `history` the snapshots of the run from
        the seeded one on, turn k handling philosopher `turns[k]`'s event. */
    method Run(samples: nat -> real, ghost floor: real)
      returns (ghost trace: seq<real>, ghost eating: seq<bool>, ghost history: seq<SimState>, ghost turns: seq<nat>)
      requires Valid() && PositiveRates() && Initial()
      requires 0 < |philosophers| || T <= 0.0
      requires 0.0 < floor && forall k :: floor <= samples(k)
      modifies this`events, philosophers, chopsticks
      ensures events == multiset{}
      ensures NonDecreasing(trace)
      ensures T <= 0.0 ==> trace == []
      ensures 0.0 < T ==> trace != [] && T <= trace[|trace| - 1]
      ensures forall k :: 0 <= k < |trace| - 1 ==> trace[k] < T
      ensures Table.Consistent(Free(), eating)
      ensures forall i :: 0 <= i < |philosophers| ==>
                && Snapshot()[i].requests != [] && Snapshot()[i].requests[0] == 0.0
                && Settled(Snapshot()[i], eating[i], if trace == [] then 0.0 else trace[|trace| - 1])
      ensures Recorded(history, turns, trace, samples, |philosophers|)
      ensures var s := history[0];
              && s.clock == 0.0 && |s.free| == |s.stats| == |s.pending| == |philosophers|
              && SeedFree(s.free, |philosophers|) && SeedStatsAll(s.stats, |philosophers|)
              && forall j :: 0 <= j < |philosophers| ==>
                   && s.pending[j].philosopher == philosophers[j]
                   && (s.pending[j].kind == Finish <==> SeedWinner(j, |philosophers|))
                   && s.pending[j].time == Expovariate(samples(j), Rate(philosophers[j], s.pending[j].kind))
      ensures var s, r := history[0], SeedSpec(|philosophers|, |philosophers|);
              && s.free == r.0 && s.stats == r.1
              && forall j :: 0 <= j < |philosophers| ==> s.pending[j].kind == r.2[j]
      ensures history[|turns|].free == Free() && history[|turns|].stats == Snapshot()
      ensures eating == Eating(history[|turns|].pending)
    {
      ghost var pending := Seed(samples);
      var time;
      time, trace, pending, history, turns := EventLoop(pending, samples, floor);
      TraceReachesHorizon(trace, time, T);
      TableOkSettles(Free(), Snapshot(), pending, time);
      Clear();
      eating := Eating(pending);
    }
  }

  /** The program's `run(n, T, mi, lambdas)` with the rates given: build a new
      simulation and run it once. The draws are the caller's `samples`. */
  method Simulate(mi: real, T: real, lambdas: seq<real>, samples: nat -> real, ghost floor: real)
    returns (sim: Simulation, ghost trace: seq<real>, ghost eating: seq<bool>,
             ghost history: seq<SimState>, ghost turns: seq<nat>)
    requires 0.0 < mi && forall i :: 0 <= i < |lambdas| ==> 0.0 < lambdas[i]
    requires 0 < |lambdas| || T <= 0.0
    requires 0.0 < floor && forall k :: floor <= samples(k)
    ensures fresh(sim) && sim.Valid() && sim.T == T && |sim.philosophers| == |lambdas|
    ensures forall i :: 0 <= i < |lambdas| ==>
              sim.philosophers[i].mi == mi && sim.philosophers[i].lambda == lambdas[i]
    ensures sim.events == multiset{}
    ensures NonDecreasing(trace) && (forall k :: 0 <= k < |trace| - 1 ==> trace[k] < T)
    ensures T <= 0.0 ==> trace == []
    ensures 0.0 < T ==> trace != [] && T <= trace[|trace| - 1]
    ensures |eating| == |lambdas| && Table.Consistent(sim.Free(), eating)
    ensures forall i :: 0 <= i < |lambdas| ==>
              && sim.Snapshot()[i].requests != [] && sim.Snapshot()[i].requests[0] == 0.0
              && Settled(sim.Snapshot()[i], eating[i], if trace == [] then 0.0 else trace[|trace| - 1])
    ensures Recorded(history, turns, trace, samples, |lambdas|)
    ensures var s, r := history[0], SeedSpec(|lambdas|, |lambdas|);
            && s.clock == 0.0 && |s.pending| == |lambdas|
            && s.free == r.0 && s.stats == r.1
            && forall j :: 0 <= j < |lambdas| ==>
                 && s.pending[j].philosopher == sim.philosophers[j]
                 && s.pending[j].kind == r.2[j]
                 && s.pending[j].time == Expovariate(samples(j), Rate(sim.philosophers[j], s.pending[j].kind))
    ensures history[|turns|].free == sim.Free() && history[|turns|].stats == sim.Snapshot()
    ensures eating == Eating(history[|turns|].pending)
  {
    sim := new Simulation(mi, T, lambdas);
    trace, eating, history, turns := sim.Run(samples, floor);
  }

}
