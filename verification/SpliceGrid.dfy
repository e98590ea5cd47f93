/**
 The stall deadline under the ticker the code makes: one that fires on a grid whose period comes from the
 deadlines themselves.
*/
module SpliceGrid {
  import opened Wrappers
  import opened Splice
  import opened SpliceRuns

  // ---------------------------------------------------------------- the grid

  function Ticks(run: seq<Event>): nat {
    if run == [] then 0 else Ticks(run[..|run| - 1]) + if run[|run| - 1].Tick? then 1 else 0
  }

  /** The stamp of the k-th tick of a ticker made `offset` after the splice began. */
  function Grid(k: nat, offset: Duration, period: Duration): nat { AsMillis(offset + k * period) }

  /** A run whose ticks fall on the grid: none is missed, and none is late. */
  predicate OnGrid(run: seq<Event>, offset: Duration, period: Duration) {
    run == [] ||
    var before, e := run[..|run| - 1], run[|run| - 1];
    && OnGrid(before, offset, period)
    && Now(before) <= e.at <= Grid(Ticks(before) + 1, offset, period)
    && (e.Tick? ==> e.at == Grid(Ticks(before) + 1, offset, period))
    && (e.Out? || e.In? ==> e.n > 0)
    && BytesOut(run) < U64_LIMIT && BytesIn(run) < U64_LIMIT
  }

  /**
   Every theorem about paced runs holds of a ticker on time, with the longer of its first gap and its
   period as `g`.
  */
  lemma {:induction false} GridRunIsPaced(run: seq<Event>, offset: Duration, period: Duration)
    requires OnGrid(run, offset, period)
    ensures Paced(run, Max(AsMillis(offset + period), CeilMillis(period)))
    ensures LastTick(run) == if Ticks(run) == 0 then 0 else Grid(Ticks(run), offset, period)
  {
    if run != [] {
      var before := run[..|run| - 1];
      GridRunIsPaced(before, offset, period);
      GridGap(offset, Ticks(before), period);
    }
  }

  /** A ticker made within a millisecond of the start has no gap over its period, rounded up. */
  lemma {:induction false} PromptGridIsPaced(run: seq<Event>, offset: Duration, period: Duration)
    requires OnGrid(run, offset, period) && offset < NANOS_PER_MILLI
    ensures Paced(run, CeilMillis(period))
  {
    GridRunIsPaced(run, offset, period);
    FirstGap(offset, period);
  }

  lemma {:induction false} FirstGap(offset: Duration, period: Duration)
    requires offset < NANOS_PER_MILLI
    ensures AsMillis(offset + period) <= CeilMillis(period)
  {
  }

  /**
   With the period the code picks and no deadline under 400 ms, a stall is told within one and a half
   deadlines of the first unanswered write, up to rounding, whatever fraction of a millisecond the
   deadlines come to. `ToldWithin` is exact where the period is whole milliseconds.
  */
  lemma {:induction false} StallToldInTime(w: Deadlines, run: seq<Event>, offset: Duration)
    requires OnGrid(run, offset, CheckPeriod(w)) && offset < NANOS_PER_MILLI && Live(w, run)
    requires w.stall.Some? && 400 * NANOS_PER_MILLI <= SmallestDeadline(w)
    requires w.stall.value < U64_LIMIT * NANOS_PER_MILLI
    requires FirstUnanswered(run).Some?
    ensures 2 * Now(run) < 2 * FirstUnanswered(run).value + 3 * AsMillis(w.stall.value) + 4
  {
    PromptGridIsPaced(run, offset, CheckPeriod(w));
    PacedStallToldInTime(w, run);
  }

  // ---------------------------------------------------------------- a grid of whole milliseconds

  /** The period the code picks for these deadlines is `p` milliseconds, no fraction over. */
  predicate TicksEvery(w: Deadlines, p: nat) { p > 0 && CheckPeriod(w) == p * NANOS_PER_MILLI }

  /** The period for a deadline of `s` seconds and no other. */
  function SecondsPeriod(s: nat): nat { Max(100, Min(5000, 250 * s)) }

  /** Deadlines of whole seconds, as the command lines take them, always give such a period. */
  lemma {:induction false} WholeSecondsTickWholeMillis(stall: Option<nat>, idle: Option<nat>) returns (p: nat)
    ensures TicksEvery(Deadlines(Seconds(stall), Seconds(idle)), p)
    ensures p == if stall.Some? && idle.Some? then Min(SecondsPeriod(stall.value), SecondsPeriod(idle.value))
                 else if stall.Some? then SecondsPeriod(stall.value)
                 else if idle.Some? then SecondsPeriod(idle.value)
                 else 3_600_000
  {
    var w := Deadlines(Seconds(stall), Seconds(idle));
    if stall.None? && idle.None? {
      p := 3_600_000;
    } else {
      var s := if stall.None? then idle.value else if idle.None? then stall.value else Min(stall.value, idle.value);
      p := Max(100, Min(5000, 250 * s));
      assert SmallestDeadline(w) == s * 1000 * NANOS_PER_MILLI;
    }
  }

  function Seconds(s: Option<nat>): Option<Duration> {
    match s
    case Some(n) => Some(n * 1000 * NANOS_PER_MILLI)
    case None => None
  }

  /** The k-th tick has the stamp `k * p`. */
  predicate OnTime(run: seq<Event>, p: nat) {
    run == [] ||
    var before, e := run[..|run| - 1], run[|run| - 1];
    && OnTime(before, p)
    && Now(before) <= e.at <= Times(Ticks(before) + 1, p)
    && (e.Tick? ==> e.at == Times(Ticks(before) + 1, p))
    && (e.Out? || e.In? ==> e.n > 0)
    && BytesOut(run) < U64_LIMIT && BytesIn(run) < U64_LIMIT
  }

  /** It is the grid of a ticker made within a millisecond of the start, while the stamps fit their width. */
  lemma {:induction false} OnTimeIff(run: seq<Event>, offset: Duration, p: nat)
    requires offset < NANOS_PER_MILLI && Now(run) < U64_LIMIT - 1
    requires OnGrid(run, offset, p * NANOS_PER_MILLI) || OnTime(run, p)
    ensures OnGrid(run, offset, p * NANOS_PER_MILLI) <==> OnTime(run, p)
  {
    if run != [] {
      var before := run[..|run| - 1];
      OnTimeIff(before, offset, p);
      TickStamp(Ticks(before) + 1, offset, p);
    }
  }

  lemma {:induction false} TickStamp(k: nat, offset: Duration, p: nat)
    requires offset < NANOS_PER_MILLI
    ensures Grid(k, offset, p * NANOS_PER_MILLI) == Min(Times(k, p), U64_LIMIT - 1)
  {
    TimesIs(k, p);
    Regroup(k, p, NANOS_PER_MILLI);
    WholeMillis(Times(k, p), offset);
  }

  lemma {:induction false} Regroup(k: nat, p: nat, n: nat)
    ensures k * (p * n) == k * p * n
  {
  }

  lemma {:induction false} WholeMillis(m: nat, offset: Duration)
    requires offset < NANOS_PER_MILLI
    ensures AsMillis(m * NANOS_PER_MILLI + offset) == Min(m, U64_LIMIT - 1)
  {
    assert (m * NANOS_PER_MILLI + offset) / NANOS_PER_MILLI == m;
  }

  lemma {:induction false} OnTimeSnoc(run: seq<Event>, e: Event, p: nat)
    ensures OnTime(run + [e], p) <==>
            && OnTime(run, p)
            && Now(run) <= e.at <= Times(Ticks(run) + 1, p)
            && (e.Tick? ==> e.at == Times(Ticks(run) + 1, p))
            && (e.Out? || e.In? ==> e.n > 0)
            && BytesOut(run + [e]) < U64_LIMIT && BytesIn(run + [e]) < U64_LIMIT
    ensures Ticks(run + [e]) == Ticks(run) + if e.Tick? then 1 else 0
  {
    Snoc(run, e);
  }

  lemma {:induction false} OnTimeIsPaced(run: seq<Event>, p: nat)
    requires OnTime(run, p)
    ensures Paced(run, p) && LastTick(run) == Times(Ticks(run), p) && Now(run) <= Times(Ticks(run) + 1, p)
  {
    if run != [] {
      OnTimeIsPaced(run[..|run| - 1], p);
    }
  }

  // ---------------------------------------------------------------- periods

  lemma {:induction false} TimesOrder(a: nat, b: nat, p: nat)
    requires p > 0
    ensures Times(a, p) <= Times(b, p) <==> a <= b
  {
    if a > 0 && b > 0 {
      TimesOrder(a - 1, b - 1, p);
    }
  }

  lemma {:induction false} APeriodOn(a: nat, b: nat, p: nat)
    requires a < b
    ensures Times(a, p) + p <= Times(b, p)
  {
    if a > 0 {
      APeriodOn(a - 1, b - 1, p);
    }
  }

  lemma {:induction false} TimesAdd(a: nat, b: nat, p: nat)
    ensures Times(a + b, p) == Times(a, p) + Times(b, p)
  {
    if a > 0 {
      TimesAdd(a - 1, b, p);
    }
  }

  /** How many whole periods have passed at `x`. */
  function Past(x: nat, p: nat): (k: nat)
    requires p > 0
    ensures Times(k, p) <= x < Times(k, p) + p
  {
    if x < p then 0 else 1 + Past(x - p, p)
  }

  /** How far into its period `x` is. */
  function Into(x: nat, p: nat): nat
    requires p > 0
  {
    x - Times(Past(x, p), p)
  }

  function NextTick(x: nat, p: nat): nat
    requires p > 0
  {
    Times(Past(x, p) + 1, p)
  }

  /** How many periods a deadline takes, the last perhaps not whole. */
  function Periods(d: nat, p: nat): (m: nat)
    requires p > 0
    ensures d <= Times(m, p) < d + p
    ensures d > 0 ==> m > 0
    decreases d
  {
    if d == 0 then 0 else 1 + Periods(SaturatingSub(d, p), p)
  }

  /** What a deadline is short of whole periods. */
  function Slack(d: nat, p: nat): nat
    requires p > 0
  {
    Times(Periods(d, p), p) - d
  }

  /** In closed form: quotients and remainders. */
  lemma {:induction false} PeriodsInClosedForm(x: nat, p: nat)
    requires p > 0
    ensures Past(x, p) == x / p && Into(x, p) == x % p
    ensures Periods(x, p) == if x % p == 0 then x / p else x / p + 1
    ensures Slack(x, p) == if x % p == 0 then 0 else p - x % p
  {
    var k := Past(x, p);
    TimesIs(k, p);
    QuotientOf(x, k, x - k * p, p);
    PeriodsOf(x, p);
  }

  lemma {:induction false} PeriodsOf(x: nat, p: nat)
    requires p > 0
    ensures Periods(x, p) == if Into(x, p) == 0 then Past(x, p) else Past(x, p) + 1
  {
    PeriodsAre(x, p, if Into(x, p) == 0 then Past(x, p) else Past(x, p) + 1);
  }

  lemma {:induction false} QuotientOf(x: nat, q: nat, r: nat, p: nat)
    requires r < p && x == q * p + r
    ensures x / p == q && x % p == r
  {
    assert x == (x / p) * p + x % p;
    assert (x / p - q) * p == r - x % p;
    NoMultiple(x / p - q, p);
  }

  lemma {:induction false} NoMultiple(k: int, p: int)
    requires p > 0
    ensures -p < k * p < p ==> k == 0
  {
    if k >= 1 {
      assert k * p >= p;
    } else if k <= -1 {
      assert k * p <= -p;
    }
  }

  lemma {:induction false} PeriodsAre(d: nat, p: nat, m: nat)
    requires p > 0 && d <= Times(m, p) < d + p
    ensures Periods(d, p) == m
  {
    var n := Periods(d, p);
    if n < m {
      TimesOrder(n + 1, m, p);
    } else if m < n {
      TimesOrder(m + 1, n, p);
    }
  }

  lemma {:induction false} TickBefore(k: nat, x: nat, p: nat)
    requires p > 0
    ensures Times(k, p) <= x <==> k <= Past(x, p)
  {
    TimesOrder(k, Past(x, p), p);
    TimesOrder(Past(x, p) + 1, k, p);
  }

  lemma {:induction false} NextTickGrows(x: nat, y: nat, p: nat)
    requires p > 0 && x <= y
    ensures x < NextTick(x, p) <= NextTick(y, p)
  {
    TickBefore(Past(x, p), y, p);
    TimesOrder(Past(x, p) + 1, Past(y, p) + 1, p);
  }

  /** A tick at least `d` after an `x` further into its period than the slack is `d` in whole periods after the next. */
  lemma {:induction false} LateInPeriod(k: nat, x: nat, d: nat, p: nat)
    requires p > 0 && Times(k, p) >= x + d
    ensures Into(x, p) > Slack(d, p) ==> Times(k, p) >= NextTick(x, p) + Times(Periods(d, p), p)
  {
    var a, m := Past(x, p), Periods(d, p);
    TimesAdd(a, m, p);
    if Into(x, p) > Slack(d, p) {
      TimesOrder(k, a + m, p);
      TimesOrder(a + m + 1, k, p);
    }
  }

  // ---------------------------------------------------------------- the clock on the grid

  lemma {:induction false} OnlyTicksSetTheClock(run: seq<Event>)
    ensures After(run).since.Some? ==> Ticks(run) > 0
  {
    if run != [] {
      OnlyTicksSetTheClock(run[..|run| - 1]);
    }
  }

  /**
   The clock is set by the tick after the first unanswered write, or before; and if it is ahead of that
   write, it is held by an answer that the write followed within the same period.
  */
  predicate HeldClose(since: nat, first: nat, heard: Option<nat>, p: nat)
    requires p > 0
  {
    && since <= NextTick(first, p)
    && (first <= since
       || (heard.Some? && since <= heard.value && p <= heard.value && first <= NextTick(heard.value, p)))
  }

  predicate CloseOnGrid(run: seq<Event>, p: nat)
    requires p > 0
  {
    After(run).since.Some? && FirstUnanswered(run).Some? ==>
      HeldClose(After(run).since.value, FirstUnanswered(run).value, LastIn(run), p)
  }

  lemma {:induction false} ClockOnGrid(run: seq<Event>, p: nat)
    requires OnTime(run, p) && p > 0
    ensures CloseOnGrid(run, p)
  {
    if run != [] {
      var before, e := run[..|run| - 1], run[|run| - 1];
      assert run == before + [e];
      ClockOnGrid(before, p);
      if e.Out? {
        WriteStaysClose(before, e, p);
      } else if e.Tick? {
        TickStaysClose(before, e, p);
      }
    }
  }

  /** An answer heard since the last tick, and a write after it that is before the next. */
  lemma {:induction false} WithinOneGap(k: nat, heard: nat, at: nat, p: nat)
    requires p > 0 && k > 0 && Times(k, p) <= heard && at <= Times(k + 1, p)
    ensures p <= heard && at <= NextTick(heard, p)
  {
    TimesOrder(1, k, p);
    TickBefore(k, heard, p);
    TimesOrder(k + 1, Past(heard, p) + 1, p);
  }

  lemma {:induction false} WriteStaysClose(run: seq<Event>, e: Event, p: nat)
    requires p > 0 && OnTime(run + [e], p) && e.Out? && CloseOnGrid(run, p)
    ensures CloseOnGrid(run + [e], p)
  {
    Snoc(run, e);
    SnocReads(run, e);
    OnTimeSnoc(run, e, p);
    OnTimeIsPaced(run, p);
    ClockInvariant(run, p);
    if After(run).since.Some? && FirstUnanswered(run).None? && FirstUnanswered(run + [e]).Some? {
      OnlyTicksSetTheClock(run);
      WithinOneGap(Ticks(run), LastIn(run).value, e.at, p);
      NextTickGrows(After(run).since.value, e.at, p);
    }
  }

  lemma {:induction false} TickStaysClose(run: seq<Event>, e: Event, p: nat)
    requires p > 0 && OnTime(run + [e], p) && e.Tick? && CloseOnGrid(run, p)
    ensures CloseOnGrid(run + [e], p)
  {
    Snoc(run, e);
    OnTimeSnoc(run, e, p);
    OnTimeIsPaced(run, p);
    ClockInvariant(run, p);
    StampsInOrder(run, p);
    if FirstUnanswered(run).Some? {
      if After(run).since.None? {
        StartsByNextTick(Ticks(run), FirstUnanswered(run).value, p);
      } else if LastIn(run).Some? {
        NextTickGrows(LastIn(run).value, FirstUnanswered(run).value, p);
      }
    }
  }

  lemma {:induction false} StartsByNextTick(k: nat, first: nat, p: nat)
    requires p > 0 && Times(k, p) <= first
    ensures Times(k + 1, p) <= NextTick(first, p)
  {
    TickBefore(k, first, p);
    TimesOrder(k + 1, Past(first, p) + 1, p);
  }

  // ---------------------------------------------------------------- how late a stall is told

  /**
   A splice does not outlive its first unanswered write by more than the periods the deadline takes and
   one more, both counted from the tick at or before that write.
  */
  lemma {:induction false} ToldWithin(w: Deadlines, run: seq<Event>, p: nat)
    requires TicksEvery(w, p) && OnTime(run, p) && Live(w, run)
    requires w.stall.Some? && FirstUnanswered(run).Some?
    ensures Now(run) <= Times(Past(FirstUnanswered(run).value, p) + Periods(AsMillis(w.stall.value), p) + 1, p)
  {
    var first, d := FirstUnanswered(run).value, AsMillis(w.stall.value);
    OnTimeIsPaced(run, p);
    LastTickWithin(w, run, p);
    TimesOrder(Ticks(run) + 1, Past(first, p) + Periods(d, p) + 1, p);
  }

  lemma {:induction false} LastTickWithin(w: Deadlines, run: seq<Event>, p: nat)
    requires p > 0 && OnTime(run, p) && Live(w, run)
    requires w.stall.Some? && FirstUnanswered(run).Some?
    ensures Ticks(run) <= Past(FirstUnanswered(run).value, p) + Periods(AsMillis(w.stall.value), p)
  {
    var first := FirstUnanswered(run).value;
    OnTimeIsPaced(run, p);
    ClockInvariant(run, p);
    if After(run).since.Some? {
      LiveAtLastTick(w, run, p);
      ClockOnGrid(run, p);
      LiveTick(Ticks(run), first, AsMillis(w.stall.value), p);
    } else {
      TickBefore(Ticks(run), first, p);
    }
  }

  /** A tick less than a deadline after the one that follows `first`. */
  lemma {:induction false} LiveTick(k: nat, first: nat, d: nat, p: nat)
    requires p > 0 && Times(k, p) < NextTick(first, p) + d
    ensures k <= Past(first, p) + Periods(d, p)
  {
    var a, m := Past(first, p), Periods(d, p);
    TimesAdd(a + 1, m, p);
    TimesOrder(a + 1 + m, k, p);
  }

  // ---------------------------------------------------------------- runs built an event at a time

  /** What matters of a run to the events that may follow it. */
  datatype Status = Status(ticks: nat, now: nat, activity: Activity, first: Option<nat>, heard: Option<nat>)

  ghost predicate Reached(w: Deadlines, p: nat, run: seq<Event>, st: Status) {
    && OnTime(run, p) && Live(w, run)
    && Ticks(run) == st.ticks && Now(run) == st.now
    && After(run) == st.activity && BytesOut(run) == st.activity.outBytes && BytesIn(run) == st.activity.inBytes
    && FirstUnanswered(run) == st.first && LastIn(run) == st.heard
  }

  function Next(st: Status, e: Event): Status {
    var moved := st.(now := e.at, activity := Step(st.activity, e));
    match e
    case Out(_, at) =>
      if st.first.Some? || (st.heard.Some? && at <= st.heard.value) then moved else moved.(first := Some(at))
    case In(_, at) => moved.(first := None, heard := Some(at))
    case Tick(_) => moved.(ticks := st.ticks + 1)
  }

  /** The event fits the grid and, if it is a tick, does not end the splice. */
  predicate Goes(w: Deadlines, p: nat, st: Status, e: Event) {
    && st.now <= e.at <= Times(st.ticks + 1, p)
    && match e
       case Out(n, _) => 0 < n < U64_LIMIT - st.activity.outBytes
       case In(n, _) => 0 < n < U64_LIMIT - st.activity.inBytes
       case Tick(at) => at == Times(st.ticks + 1, p) && TickVerdict(w, st.activity, at).None?
  }

  function TickVerdict(w: Deadlines, a: Activity, now: nat): Option<Ended> {
    Verdict(w, NextSince(a.since, a.Wrote(), a.Heard()), now, a.Wrote(), a.Heard())
  }

  lemma {:induction false} VerdictOf(w: Deadlines, run: seq<Event>, now: nat)
    ensures VerdictAt(w, run, now) == TickVerdict(w, After(run), now)
  {
    Snoc(run, Tick(now));
  }

  lemma {:induction false} LiveSnoc(w: Deadlines, run: seq<Event>, e: Event)
    requires Live(w, run) && (e.Tick? ==> VerdictAt(w, run, e.at).None?)
    ensures Live(w, run + [e])
  {
    forall i | 0 <= i <= |run| ensures !TripsAt(w, run + [e], i) {
      assert (run + [e])[..i] == run[..i];
      assert run[..|run|] == run;
      assert i < |run| ==> !TripsAt(w, run, i);
    }
  }

  lemma {:induction false} GoesOn(w: Deadlines, p: nat, run: seq<Event>, st: Status, e: Event)
    requires Reached(w, p, run, st) && Goes(w, p, st, e)
    ensures Reached(w, p, run + [e], Next(st, e))
  {
    GoesOnInTime(w, p, run, st, e);
    GoesOnReading(w, p, run, st, e);
  }

  lemma {:induction false} GoesOnInTime(w: Deadlines, p: nat, run: seq<Event>, st: Status, e: Event)
    requires Reached(w, p, run, st) && Goes(w, p, st, e)
    ensures OnTime(run + [e], p) && Live(w, run + [e]) && Ticks(run + [e]) == Next(st, e).ticks
  {
    SnocReads(run, e);
    OnTimeSnoc(run, e, p);
    VerdictOf(w, run, e.at);
    LiveSnoc(w, run, e);
  }

  lemma {:induction false} GoesOnReading(w: Deadlines, p: nat, run: seq<Event>, st: Status, e: Event)
    requires Reached(w, p, run, st) && Goes(w, p, st, e)
    ensures After(run + [e]) == Next(st, e).activity
    ensures FirstUnanswered(run + [e]) == Next(st, e).first
    ensures Now(run + [e]) == Next(st, e).now && LastIn(run + [e]) == Next(st, e).heard
    ensures BytesOut(run + [e]) == Next(st, e).activity.outBytes && BytesIn(run + [e]) == Next(st, e).activity.inBytes
  {
    Snoc(run, e);
  }

  /** Nothing has moved, and the k-th tick is just gone. */
  predicate AtRest(st: Status, k: nat, p: nat) {
    && st.ticks == k && st.now == Times(k, p)
    && st.activity.outBytes == 0 && st.activity.inBytes == 0
    && st.activity.since.None? && st.first.None? && st.heard.None?
  }

  lemma {:induction false} NothingYet(w: Deadlines, p: nat) returns (st: Status)
    ensures Reached(w, p, [], st) && AtRest(st, 0, p)
  {
    st := Status(0, 0, After([]), None, None);
  }

  lemma {:induction false} TickAtRest(w: Deadlines, p: nat, st: Status, k: nat)
    requires w.idle.None? && AtRest(st, k, p)
    ensures Goes(w, p, st, Tick(Times(k + 1, p))) && AtRest(Next(st, Tick(Times(k + 1, p))), k + 1, p)
  {
  }

  /** Ticks with nothing on the splice. */
  lemma {:induction false} IdleTicks(w: Deadlines, p: nat, k: nat) returns (run: seq<Event>, st: Status)
    requires w.idle.None?
    ensures Reached(w, p, run, st) && AtRest(st, k, p)
  {
    if k == 0 {
      run := [];
      st := NothingYet(w, p);
    } else {
      var before, resting := IdleTicks(w, p, k - 1);
      var e := Tick(Times(k, p));
      TickAtRest(w, p, resting, k - 1);
      GoesOn(w, p, before, resting, e);
      run, st := before + [e], Next(resting, e);
    }
  }

  /** The last write, the last answer, the clock and the first unanswered write. */
  predicate Waits(st: Status, wrote: nat, heard: Option<nat>, since: Option<nat>, first: nat) {
    && st.activity.Wrote() == Some(wrote) && st.activity.outBytes <= 2
    && st.activity.Heard() == heard && st.activity.inBytes <= 1
    && st.activity.since == since && st.first == Some(first) && st.heard == heard
  }

  /** What the clock is at the next tick, when something is outstanding. */
  function ClockNext(a: Activity): nat
    requires Outstanding(a.Wrote(), a.Heard())
  {
    NextSince(a.since, a.Wrote(), a.Heard()).value
  }

  function Ticked(st: Status, j: nat, p: nat): Status
    requires Outstanding(st.activity.Wrote(), st.activity.Heard())
  {
    if j == 0 then st
    else st.(ticks := st.ticks + j, now := Times(st.ticks + j, p),
             activity := st.activity.(since := Some(ClockNext(st.activity))))
  }

  /** Something is outstanding, and `j` ticks on the clock has not run out. */
  predicate TicksLive(w: Deadlines, p: nat, st: Status, j: nat)
    requires w.stall.Some?
  {
    && st.now <= Times(st.ticks + 1, p) && Outstanding(st.activity.Wrote(), st.activity.Heard())
    && (j == 0 || Times(st.ticks + j, p) < ClockNext(st.activity) + AsMillis(w.stall.value))
  }

  lemma {:induction false} LiveBefore(w: Deadlines, p: nat, st: Status, j: nat)
    requires w.stall.Some? && p > 0 && TicksLive(w, p, st, j + 1)
    ensures TicksLive(w, p, st, j)
  {
    TimesOrder(st.ticks + j, st.ticks + j + 1, p);
  }

  lemma {:induction false} OneMoreTick(w: Deadlines, p: nat, st: Status, j: nat)
    requires w.stall.Some? && w.idle.None? && AsMillis(w.stall.value) > 0 && j > 0 && TicksLive(w, p, st, j)
    ensures Goes(w, p, Ticked(st, j - 1, p), Tick(Times(st.ticks + j, p)))
    ensures Next(Ticked(st, j - 1, p), Tick(Times(st.ticks + j, p))) == Ticked(st, j, p)
  {
  }

  /** Ticks with a request outstanding, for as long as the deadline has not passed. */
  lemma {:induction false} KeepTicking(w: Deadlines, p: nat, run: seq<Event>, st: Status, j: nat)
    returns (on: seq<Event>)
    requires w.stall.Some? && w.idle.None? && AsMillis(w.stall.value) > 0 && p > 0 && Reached(w, p, run, st)
    requires TicksLive(w, p, st, j)
    ensures Reached(w, p, on, Ticked(st, j, p))
  {
    on := run;
    if j > 0 {
      var e := Tick(Times(st.ticks + j, p));
      LiveBefore(w, p, st, j - 1);
      on := KeepTicking(w, p, run, st, j - 1);
      OneMoreTick(w, p, st, j);
      GoesOn(w, p, on, Ticked(st, j - 1, p), e);
      on := on + [e];
    }
  }

  // ---------------------------------------------------------------- the bound is reached

  /** Whenever the first unanswered write, a second just before the next tick starts the clock as late as can be. */
  lemma {:induction false} BoundIsReached(w: Deadlines, p: nat, first: nat) returns (run: seq<Event>)
    requires TicksEvery(w, p) && w.stall.Some? && w.idle.None? && AsMillis(w.stall.value) > 0
    ensures OnTime(run, p) && Live(w, run) && FirstUnanswered(run) == Some(first)
    ensures Now(run) == Times(Past(first, p) + Periods(AsMillis(w.stall.value), p) + 1, p)
  {
    var m := Periods(AsMillis(w.stall.value), p);
    var start, st := LateStart(w, p, first);
    LastLiveTick(Past(first, p), AsMillis(w.stall.value), p);
    run := WriteAtNextTick(w, p, start, st, m);
  }

  /** Ticks on while the clock has not run out, and a write just before the tick that would find it has. */
  lemma {:induction false} WriteAtNextTick(w: Deadlines, p: nat, start: seq<Event>, st: Status, j: nat)
    returns (run: seq<Event>)
    requires w.stall.Some? && w.idle.None? && AsMillis(w.stall.value) > 0 && p > 0 && Reached(w, p, start, st)
    requires TicksLive(w, p, st, j) && st.first.Some? && st.activity.outBytes < U64_LIMIT - 1
    ensures OnTime(run, p) && Live(w, run) && FirstUnanswered(run) == st.first && Now(run) == Times(st.ticks + j + 1, p)
  {
    var told := KeepTicking(w, p, start, st, j);
    var e := Out(1, Times(st.ticks + j + 1, p));
    TimesOrder(st.ticks + j, st.ticks + j + 1, p);
    GoesOn(w, p, told, Ticked(st, j, p), e);
    run := told + [e];
  }

  /** A clock started by the tick after the a-th has not run out as many ticks later as the deadline takes periods. */
  lemma {:induction false} LastLiveTick(a: nat, d: nat, p: nat)
    requires p > 0 && d > 0
    ensures Times(a + Periods(d, p), p) < Times(a + 1, p) + d
  {
    TimesAdd(a, Periods(d, p), p);
    TimesAdd(a, 1, p);
    assert Times(1, p) == p;
  }

  /** Two writes since the last tick: at `first`, and at the next tick. */
  lemma {:induction false} LateStart(w: Deadlines, p: nat, first: nat) returns (run: seq<Event>, st: Status)
    requires p > 0 && w.idle.None?
    ensures Reached(w, p, run, st) && st.ticks == Past(first, p) && st.now == NextTick(first, p)
    ensures Waits(st, NextTick(first, p), None, None, first)
  {
    var before, resting := IdleTicks(w, p, Past(first, p));
    var one, two := Out(1, first), Out(1, NextTick(first, p));
    GoesOn(w, p, before, resting, one);
    GoesOn(w, p, before + [one], Next(resting, one), two);
    run, st := before + [one] + [two], Next(Next(resting, one), two);
  }

  /** A stall is told within a deadline and a quarter of the first unanswered write, in every run. */
  ghost predicate ToldWithinAQuarter(w: Deadlines, p: nat)
    requires w.stall.Some?
  {
    forall run: seq<Event> | OnTime(run, p) && Live(w, run) && FirstUnanswered(run).Some? ::
      4 * Now(run) <= 4 * FirstUnanswered(run).value + 5 * AsMillis(w.stall.value)
  }

  /** That holds exactly when the periods the deadline takes and one more come to no more. */
  lemma {:induction false} QuarterIff(w: Deadlines, p: nat)
    requires TicksEvery(w, p) && w.stall.Some? && w.idle.None? && AsMillis(w.stall.value) > 0
    ensures ToldWithinAQuarter(w, p)
            <==> 4 * Times(Periods(AsMillis(w.stall.value), p) + 1, p) <= 5 * AsMillis(w.stall.value)
  {
    var d: nat := AsMillis(w.stall.value);
    var m := Periods(d, p);
    if 4 * Times(m + 1, p) <= 5 * d {
      forall run: seq<Event> | OnTime(run, p) && Live(w, run) && FirstUnanswered(run).Some?
        ensures 4 * Now(run) <= 4 * FirstUnanswered(run).value + 5 * d
      {
        ToldWithin(w, run, p);
        TimesAdd(Past(FirstUnanswered(run).value, p), m + 1, p);
      }
    } else {
      var run := BoundIsReached(w, p, 0);
      assert Past(0, p) == 0;
    }
  }

  predicate WithinAQuarter(s: nat) {
    4 * Times(Periods(s * 1000, SecondsPeriod(s)) + 1, SecondsPeriod(s)) <= 5000 * s
  }

  lemma {:induction false} FewSeconds(s: nat)
    requires 0 < s <= 20
    ensures WithinAQuarter(s)
  {
    TimesIs(4, 250 * s);
    TimesIs(5, 250 * s);
    PeriodsAre(s * 1000, 250 * s, 4);
  }

  lemma {:induction false} ManySecondsIff(s: nat)
    requires 20 < s
    ensures WithinAQuarter(s) <==> s !in {21, 22, 23, 26, 27, 31}
  {
    var m := (s + 4) / 5;
    TimesIs(m, 5000);
    TimesIs(m + 1, 5000);
    PeriodsAre(s * 1000, 5000, m);
  }

  /** Of the whole numbers of seconds the command line takes, six break it. */
  lemma {:induction false} SecondsWithinAQuarterIff(s: nat)
    requires 0 < s && s * 1000 < U64_LIMIT
    ensures TicksEvery(Deadlines(Seconds(Some(s)), None), SecondsPeriod(s))
    ensures ToldWithinAQuarter(Deadlines(Seconds(Some(s)), None), SecondsPeriod(s))
            <==> s !in {21, 22, 23, 26, 27, 31}
  {
    var w := Deadlines(Seconds(Some(s)), None);
    SecondsTick(s);
    QuarterIff(w, SecondsPeriod(s));
    if s <= 20 {
      FewSeconds(s);
    } else {
      ManySecondsIff(s);
    }
  }

  lemma {:induction false} SecondsTick(s: nat)
    requires 0 < s && s * 1000 < U64_LIMIT
    ensures TicksEvery(Deadlines(Seconds(Some(s)), None), SecondsPeriod(s))
    ensures AsMillis(s * 1000 * NANOS_PER_MILLI) == s * 1000
  {
    var q := WholeSecondsTickWholeMillis(Some(s), None);
    WholeMillis(s * 1000, 0);
  }

  // ---------------------------------------------------------------- when a stall is told at its full age

  /** A stall is told once the first unanswered write is as old as the deadline. */
  predicate ToldAtFullAge(w: Deadlines, run: seq<Event>, now: nat)
    requires w.stall.Some?
  {
    VerdictAt(w, run, now) == Some(Stalled(w.stall.value)) ==>
      FirstUnanswered(run).Some? && FirstUnanswered(run).value + AsMillis(w.stall.value) <= now
  }

  lemma {:induction false} LateAnswerFullAge(w: Deadlines, p: nat, run: seq<Event>, now: nat)
    requires TicksEvery(w, p) && w.stall.Some? && OnTime(run + [Tick(now)], p)
    requires LastIn(run).None? || LastIn(run).value < p
             || Into(LastIn(run).value, p) > Slack(AsMillis(w.stall.value), p)
    ensures ToldAtFullAge(w, run, now)
  {
    var d, ticked := AsMillis(w.stall.value), run + [Tick(now)];
    Snoc(run, Tick(now));
    SnocReads(run, Tick(now));
    OnTimeSnoc(run, Tick(now), p);
    OnTimeIsPaced(ticked, p);
    if VerdictAt(w, run, now) == Some(Stalled(w.stall.value)) {
      SampledClockTracksIdeal(ticked, p);
      ClockInvariant(ticked, p);
      ClockOnGrid(ticked, p);
      LateInPeriod(Ticks(ticked), After(ticked).since.value, d, p);
    }
  }

  /** An answer early enough in its period, and another request at the end of it. */
  lemma {:induction false} EarlyAnswer(w: Deadlines, p: nat, h: nat) returns (run: seq<Event>, now: nat)
    requires TicksEvery(w, p) && w.stall.Some? && w.idle.None? && AsMillis(w.stall.value) > 0
    requires p <= h && Into(h, p) <= Slack(AsMillis(w.stall.value), p)
    ensures OnTime(run + [Tick(now)], p) && Live(w, run) && LastIn(run) == Some(h) && !ToldAtFullAge(w, run, now)
  {
    var a, m := Past(h, p), Periods(AsMillis(w.stall.value), p);
    TickBefore(1, h, p);
    var start, st := AnsweredAndAsked(w, p, h);
    EarlyAges(h, AsMillis(w.stall.value), p);
    run, now := RunsOutYoung(w, p, start, st, m - 1);
  }

  /** Ticks on from a run whose first unanswered write is younger than its clock, until the clock runs out. */
  lemma {:induction false} RunsOutYoung(w: Deadlines, p: nat, start: seq<Event>, st: Status, j: nat)
    returns (run: seq<Event>, now: nat)
    requires w.stall.Some? && w.idle.None? && AsMillis(w.stall.value) > 0 && p > 0 && Reached(w, p, start, st)
    requires TicksLive(w, p, st, j) && ClockNext(st.activity) + AsMillis(w.stall.value) <= Times(st.ticks + j + 1, p)
    requires st.first.Some? && Times(st.ticks + j + 1, p) < st.first.value + AsMillis(w.stall.value)
    ensures OnTime(run + [Tick(now)], p) && Live(w, run) && LastIn(run) == st.heard && !ToldAtFullAge(w, run, now)
  {
    now := Times(st.ticks + j + 1, p);
    run := KeepTicking(w, p, start, st, j);
    RunsOut(w, p, st, j, now);
    TimesOrder(st.ticks + j, st.ticks + j + 1, p);
    EndsYoung(w, p, run, Ticked(st, j, p), now);
  }

  lemma {:induction false} RunsOut(w: Deadlines, p: nat, st: Status, j: nat, now: nat)
    requires w.stall.Some? && Outstanding(st.activity.Wrote(), st.activity.Heard())
    requires ClockNext(st.activity) + AsMillis(w.stall.value) <= now
    ensures TickVerdict(w, Ticked(st, j, p).activity, now) == Some(Stalled(w.stall.value))
  {
  }

  /** A tick that ends the run at `st` while its first unanswered write is younger than the deadline. */
  lemma {:induction false} EndsYoung(w: Deadlines, p: nat, run: seq<Event>, st: Status, now: nat)
    requires w.stall.Some? && Reached(w, p, run, st) && st.now <= now == Times(st.ticks + 1, p)
    requires TickVerdict(w, st.activity, now) == Some(Stalled(w.stall.value))
    requires st.first.Some? && now < st.first.value + AsMillis(w.stall.value)
    ensures OnTime(run + [Tick(now)], p) && !ToldAtFullAge(w, run, now)
  {
    OnTimeSnoc(run, Tick(now), p);
    SnocReads(run, Tick(now));
    VerdictOf(w, run, now);
  }

  /** The tick that finds an answer at `h` a deadline old finds a write at the tick after it younger. */
  lemma {:induction false} EarlyAges(h: nat, d: nat, p: nat)
    requires p > 0 && d > 0 && Into(h, p) <= Slack(d, p)
    ensures var a, m := Past(h, p), Periods(d, p);
            && Times(a + m - 1, p) <= Times(a + m, p) < NextTick(h, p) + d
            && Times(a + m - 1, p) < h + d <= Times(a + m, p)
  {
    var a, m := Past(h, p), Periods(d, p);
    TimesAdd(a, m - 1, p);
    TimesAdd(a, m, p);
    LastLiveTick(a, d, p);
    TimesOrder(a + m - 1, a + m, p);
  }

  /** A write told by the tick before `h`, answered at `h`, and another just before the next tick. */
  lemma {:induction false} AnsweredAndAsked(w: Deadlines, p: nat, h: nat) returns (run: seq<Event>, st: Status)
    requires p > 0 && w.stall.Some? && w.idle.None? && AsMillis(w.stall.value) > 0 && Past(h, p) > 0
    ensures Reached(w, p, run, st) && st.ticks == Past(h, p) && st.now == NextTick(h, p)
    ensures Waits(st, NextTick(h, p), Some(h), Some(Times(Past(h, p), p)), NextTick(h, p))
  {
    var answer, write := In(1, h), Out(1, NextTick(h, p));
    var told, seen := Told(w, p, Past(h, p));
    GoesOn(w, p, told, seen, answer);
    GoesOn(w, p, told + [answer], Next(seen, answer), write);
    run, st := told + [answer] + [write], Next(Next(seen, answer), write);
  }

  /** A write at the a-th tick, and that tick after it. */
  lemma {:induction false} Told(w: Deadlines, p: nat, a: nat) returns (run: seq<Event>, st: Status)
    requires p > 0 && w.stall.Some? && w.idle.None? && AsMillis(w.stall.value) > 0 && a > 0
    ensures Reached(w, p, run, st) && st.ticks == a && st.now == Times(a, p)
    ensures Waits(st, Times(a, p), None, Some(Times(a, p)), Times(a, p)) && st.activity.outBytes == 1
    ensures st.activity.inBytes == 0
  {
    var write := Out(1, Times(a, p));
    var before, resting := IdleTicks(w, p, a - 1);
    TimesOrder(a - 1, a, p);
    GoesOn(w, p, before, resting, write);
    run := KeepTicking(w, p, before + [write], Next(resting, write), 1);
    st := Ticked(Next(resting, write), 1, p);
  }

  /**
   After an answer at `h`, a stall is always told at the full age of the first unanswered write exactly
   when `h` is before the first tick, or further into its period than the deadline is short of whole
   periods; for a deadline of whole periods, when `h` is not on a tick.
  */
  lemma {:induction false} FullAgeIff(w: Deadlines, p: nat, h: nat)
    requires TicksEvery(w, p) && w.stall.Some? && w.idle.None? && AsMillis(w.stall.value) > 0
    ensures (forall run: seq<Event>, now: nat
               | OnTime(run + [Tick(now)], p) && Live(w, run) && LastIn(run) == Some(h) ::
               ToldAtFullAge(w, run, now))
            <==> h < p || Into(h, p) > Slack(AsMillis(w.stall.value), p)
  {
    if h < p || Into(h, p) > Slack(AsMillis(w.stall.value), p) {
      forall run: seq<Event>, now: nat | OnTime(run + [Tick(now)], p) && Live(w, run) && LastIn(run) == Some(h)
        ensures ToldAtFullAge(w, run, now)
      {
        LateAnswerFullAge(w, p, run, now);
      }
    } else {
      var run, now := EarlyAnswer(w, p, h);
    }
  }
}
