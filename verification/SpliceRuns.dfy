/**
 What the stall clock promises over whole runs.

 A tick sees only the latest write and the latest answer, while the deadline is promised from the
 first write nobody answered. Everything below compares the two, over every interleaving of writes,
 answers and ticks whose ticks are never more than `g` milliseconds apart.
*/
module SpliceRuns {
  import opened Wrappers
  import opened Splice

  // ---------------------------------------------------------------- what happened, as history

  function LastOut(run: seq<Event>): Option<nat> {
    if run == [] then None
    else if run[|run| - 1].Out? then Some(run[|run| - 1].at)
    else LastOut(run[..|run| - 1])
  }

  function LastIn(run: seq<Event>): Option<nat> {
    if run == [] then None
    else if run[|run| - 1].In? then Some(run[|run| - 1].at)
    else LastIn(run[..|run| - 1])
  }

  /** The stamp of the last tick; the start of the splice counts as one. */
  function LastTick(run: seq<Event>): nat {
    if run == [] then 0
    else if run[|run| - 1].Tick? then run[|run| - 1].at
    else LastTick(run[..|run| - 1])
  }

  function Now(run: seq<Event>): nat {
    if run == [] then 0 else run[|run| - 1].at
  }

  function BytesOut(run: seq<Event>): nat {
    if run == [] then 0
    else BytesOut(run[..|run| - 1]) + if run[|run| - 1].Out? then run[|run| - 1].n else 0
  }

  function BytesIn(run: seq<Event>): nat {
    if run == [] then 0
    else BytesIn(run[..|run| - 1]) + if run[|run| - 1].In? then run[|run| - 1].n else 0
  }

  /** The write at `i` is younger than every answer. */
  predicate UnansweredWrite(run: seq<Event>, i: nat)
    requires i < |run|
  {
    run[i].Out? && forall j :: 0 <= j < |run| && run[j].In? ==> run[j].at < run[i].at
  }

  /** `f` is the stamp of the earliest write strictly younger than every answer. */
  ghost predicate IsFirstUnanswered(run: seq<Event>, f: nat) {
    && (exists i :: 0 <= i < |run| && UnansweredWrite(run, i) && run[i].at == f)
    && (forall i :: 0 <= i < |run| && UnansweredWrite(run, i) ==> f <= run[i].at)
  }

  /** The same, read off the run from its end. */
  function FirstUnanswered(run: seq<Event>): Option<nat> {
    if run == [] then None
    else
      var before := run[..|run| - 1];
      match run[|run| - 1]
      case Out(_, at) =>
        if FirstUnanswered(before).Some? then FirstUnanswered(before)
        else if LastIn(before).Some? && at <= LastIn(before).value then None
        else Some(at)
      case In(_, _) => None
      case Tick(_) => FirstUnanswered(before)
  }

  /**
   A run the clock and the transport can produce: stamps never go back, every event comes at most
   `g` after the tick before it, chunks are not empty, and no byte counter has wrapped.
  */
  predicate Paced(run: seq<Event>, g: nat) {
    run == [] ||
    var before, e := run[..|run| - 1], run[|run| - 1];
    && Paced(before, g)
    && Now(before) <= e.at <= LastTick(before) + g
    && (e.Out? || e.In? ==> e.n > 0)
    && BytesOut(run) < U64_LIMIT && BytesIn(run) < U64_LIMIT
  }

  /** The run has not been ended: none of its ticks tripped. */
  ghost predicate Live(w: Deadlines, run: seq<Event>) {
    forall i :: 0 <= i < |run| ==> !TripsAt(w, run, i)
  }

  // ---------------------------------------------------------------- the history functions agree

  lemma {:induction false} Snoc(run: seq<Event>, e: Event)
    ensures (run + [e])[..|run + [e]| - 1] == run && (run + [e])[|run + [e]| - 1] == e
  {
  }

  /** What one more event does to each reading of the history. */
  lemma {:induction false} SnocReads(run: seq<Event>, e: Event)
    ensures LastOut(run + [e]) == if e.Out? then Some(e.at) else LastOut(run)
    ensures LastIn(run + [e]) == if e.In? then Some(e.at) else LastIn(run)
    ensures LastTick(run + [e]) == if e.Tick? then e.at else LastTick(run)
    ensures Now(run + [e]) == e.at
    ensures BytesOut(run + [e]) == BytesOut(run) + if e.Out? then e.n else 0
    ensures BytesIn(run + [e]) == BytesIn(run) + if e.In? then e.n else 0
    ensures After(run + [e]).since ==
              if e.Tick? then NextSince(After(run).since, After(run).Wrote(), After(run).Heard())
              else After(run).since
  {
    Snoc(run, e);
  }

  lemma {:induction false} SnocPaced(run: seq<Event>, e: Event, g: nat)
    ensures Paced(run + [e], g) <==>
            && Paced(run, g)
            && Now(run) <= e.at <= LastTick(run) + g
            && (e.Out? || e.In? ==> e.n > 0)
            && BytesOut(run + [e]) < U64_LIMIT && BytesIn(run + [e]) < U64_LIMIT
  {
    Snoc(run, e);
  }

  lemma {:induction false} StampsInOrder(run: seq<Event>, g: nat)
    requires Paced(run, g)
    ensures forall i :: 0 <= i < |run| ==> run[i].at <= Now(run)
    ensures LastTick(run) <= Now(run)
    ensures LastOut(run).Some? ==> LastOut(run).value <= Now(run)
    ensures LastIn(run).Some? ==> LastIn(run).value <= Now(run)
    ensures forall i :: 0 <= i < |run| && run[i].In? ==> LastIn(run).Some? && run[i].at <= LastIn(run).value
  {
    if run != [] {
      StampsInOrder(run[..|run| - 1], g);
    }
  }

  /** Where the last answer is. */
  lemma {:induction false} LastInAt(run: seq<Event>) returns (i: nat)
    requires LastIn(run).Some?
    ensures i < |run| && run[i].In? && run[i].at == LastIn(run).value
  {
    i := |run| - 1;
    if !run[i].In? {
      i := LastInAt(run[..i]);
    }
  }

  /** The recursion and the definition pick the same write, and both see one exactly when there is one. */
  lemma {:induction false} FirstUnansweredIsEarliest(run: seq<Event>, g: nat)
    requires Paced(run, g)
    ensures EarliestIs(run, FirstUnanswered(run))
  {
    if run != [] {
      var before, e := run[..|run| - 1], run[|run| - 1];
      assert run == before + [e];
      StampsInOrder(before, g);
      FirstUnansweredIsEarliest(before, g);
      match e
      case In(_, _) => AnAnswerSettlesAll(before, e, g);
      case Tick(_) => TickSettlesNothing(before, e);
      case Out(_, _) => WriteSettlesNothing(before, e, g);
    }
  }

  ghost predicate EarliestIs(run: seq<Event>, first: Option<nat>) {
    if first.Some? then IsFirstUnanswered(run, first.value)
    else forall i :: 0 <= i < |run| ==> !UnansweredWrite(run, i)
  }

  lemma {:induction false} AnAnswerSettlesAll(run: seq<Event>, e: Event, g: nat)
    requires Paced(run + [e], g) && e.In?
    ensures EarliestIs(run + [e], None)
  {
    StampsInOrder(run + [e], g);
    forall i | 0 <= i < |run + [e]| ensures !UnansweredWrite(run + [e], i) {
      assert (run + [e])[|run|] == e && (run + [e])[i].at <= e.at;
    }
  }

  /** An event that is no answer leaves the writes before it as they were. */
  lemma {:induction false} StillUnanswered(run: seq<Event>, e: Event, i: nat)
    requires i < |run| && !e.In?
    ensures UnansweredWrite(run + [e], i) <==> UnansweredWrite(run, i)
  {
    if UnansweredWrite(run + [e], i) {
      forall j | 0 <= j < |run| && run[j].In? ensures run[j].at < run[i].at {
        assert (run + [e])[j] == run[j];
      }
    }
  }

  lemma {:induction false} TickSettlesNothing(run: seq<Event>, e: Event)
    requires e.Tick? && EarliestIs(run, FirstUnanswered(run))
    ensures EarliestIs(run + [e], FirstUnanswered(run))
  {
    forall i | 0 <= i < |run| ensures UnansweredWrite(run + [e], i) <==> UnansweredWrite(run, i) {
      StillUnanswered(run, e, i);
    }
    if FirstUnanswered(run).Some? {
      var i :| 0 <= i < |run| && UnansweredWrite(run, i) && run[i].at == FirstUnanswered(run).value;
      assert UnansweredWrite(run + [e], i);
    }
  }

  lemma {:induction false} WriteSettlesNothing(run: seq<Event>, e: Event, g: nat)
    requires Paced(run + [e], g) && e.Out? && EarliestIs(run, FirstUnanswered(run))
    ensures EarliestIs(run + [e], FirstUnanswered(run + [e]))
  {
    var all, n := run + [e], |run|;
    Snoc(run, e);
    StampsInOrder(run, g);
    forall i | 0 <= i < n ensures UnansweredWrite(all, i) <==> UnansweredWrite(run, i) {
      StillUnanswered(run, e, i);
    }
    if FirstUnanswered(run).Some? {
      var i :| 0 <= i < n && UnansweredWrite(run, i) && run[i].at == FirstUnanswered(run).value;
      assert UnansweredWrite(all, i) && all[i].at <= all[n].at;
    } else if LastIn(run).Some? && e.at <= LastIn(run).value {
      var j := LastInAt(run);
      assert all[j].In? && !UnansweredWrite(all, n);
    } else {
      assert forall j :: 0 <= j < |all| && all[j].In? ==> j < n && all[j] == run[j];
      assert UnansweredWrite(all, n);
    }
  }

  // ---------------------------------------------------------------- the sampled clock

  /**
   How the clock stands to the first unanswered write `F` at any point of a run, between ticks too.
   Either they are within `g` of each other, or `F` came after the last tick and the clock is unset
   or about to be overruled by an answer that also came after it.
  */
  predicate Tracks(since: Option<nat>, first: Option<nat>, heard: Option<nat>, tick: nat, g: nat) {
    && (since.Some? ==> since.value <= tick)
    && (first.None? && since.Some? ==> heard.Some? && tick <= heard.value)
    && (first.Some? ==> Near(since, first.value, heard, g) || Fresh(since, first.value, heard, tick))
  }

  predicate Near(since: Option<nat>, f: nat, heard: Option<nat>, g: nat) {
    && since.Some?
    && f <= since.value + g && since.value <= f + g
    && heard.GetOr(0) <= since.value
    && (heard.None? ==> f <= since.value)
  }

  predicate Fresh(since: Option<nat>, f: nat, heard: Option<nat>, tick: nat) {
    tick <= f && (since.Some? ==> heard.Some? && tick <= heard.value)
  }

  /** The wrapped counters and the overwritten stamps still say what moved last, and whether anything did. */
  lemma {:induction false} CountersExact(run: seq<Event>, g: nat)
    requires Paced(run, g)
    ensures After(run).outBytes == BytesOut(run) && After(run).inBytes == BytesIn(run)
    ensures After(run).Wrote() == LastOut(run) && After(run).Heard() == LastIn(run)
  {
    if run != [] {
      CountersExact(run[..|run| - 1], g);
    }
  }

  /** Everything one step needs to know about the run before it. */
  ghost predicate ClockAgrees(run: seq<Event>, g: nat) {
    var first, wrote, heard := FirstUnanswered(run), LastOut(run), LastIn(run);
    && After(run).Wrote() == wrote && After(run).Heard() == heard
    && (first.Some? <==> Outstanding(wrote, heard))
    && (first.Some? ==> first.value <= wrote.value && (heard.Some? ==> heard.value < first.value))
    && Tracks(After(run).since, first, heard, LastTick(run), g)
  }

  lemma {:induction false} ClockInvariant(run: seq<Event>, g: nat)
    requires Paced(run, g)
    ensures ClockAgrees(run, g)
  {
    CountersExact(run, g);
    if run != [] {
      var before := run[..|run| - 1];
      ClockInvariant(before, g);
      assert run == before + [run[|run| - 1]];
      ClockStep(before, run[|run| - 1], g);
    }
  }

  lemma {:induction false} ClockStep(before: seq<Event>, e: Event, g: nat)
    requires Paced(before + [e], g) && ClockAgrees(before, g)
    ensures ClockAgrees(before + [e], g)
  {
    Snoc(before, e);
    StampsInOrder(before, g);
    CountersExact(before + [e], g);
  }

  /** After a tick the clock is set exactly when a request is outstanding, and is never far off. */
  lemma {:induction false} SampledClockTracksIdeal(run: seq<Event>, g: nat)
    requires Paced(run, g)
    requires run != [] && run[|run| - 1].Tick?
    ensures After(run).since.Some? <==> FirstUnanswered(run).Some?
    ensures After(run).since.Some? ==>
              Near(After(run).since, FirstUnanswered(run).value, LastIn(run), g)
  {
    var before := run[..|run| - 1];
    ClockInvariant(before, g);
    ClockInvariant(run, g);
    StampsInOrder(before, g);
  }

  /** What a verdict means: the ticks of a run read exactly what its history says. */
  lemma {:induction false} VerdictReadsHistory(w: Deadlines, run: seq<Event>, now: nat, g: nat)
    requires Paced(run + [Tick(now)], g)
    ensures Paced(run, g) && Now(run) <= now
    ensures VerdictAt(w, run, now) == Verdict(w, After(run + [Tick(now)]).since, now, LastOut(run), LastIn(run))
    ensures LastOut(run + [Tick(now)]) == LastOut(run) && LastIn(run + [Tick(now)]) == LastIn(run)
    ensures FirstUnanswered(run + [Tick(now)]) == FirstUnanswered(run)
  {
    Snoc(run, Tick(now));
    ClockInvariant(run + [Tick(now)], g);
  }

  // ---------------------------------------------------------------- soundness

  /**
   A stalled verdict is never wrong by more than one gap: there is an unanswered write, nothing was
   heard for the whole deadline, and the write is at least the deadline less `g` old; the whole
   deadline when nothing was ever heard.
  */
  lemma {:induction false} StallSound(w: Deadlines, run: seq<Event>, now: nat, g: nat)
    requires Paced(run + [Tick(now)], g)
    requires w.stall.Some? && VerdictAt(w, run, now) == Some(Stalled(w.stall.value))
    ensures FirstUnanswered(run).Some?
    ensures LastIn(run).Some? ==> LastIn(run).value + AsMillis(w.stall.value) <= now
    ensures FirstUnanswered(run).value + AsMillis(w.stall.value) <= now + g
    ensures LastIn(run).None? ==> FirstUnanswered(run).value + AsMillis(w.stall.value) <= now
  {
    var ticked := run + [Tick(now)];
    Snoc(run, Tick(now));
    VerdictReadsHistory(w, run, now, g);
    SampledClockTracksIdeal(ticked, g);
    ClockInvariant(ticked, g);
    StampsInOrder(run, g);
  }

  /** A far side heard from within every deadline is never cut off for stalling. */
  lemma {:induction false} AnsweringFarSideNeverStalls(w: Deadlines, run: seq<Event>, now: nat, g: nat)
    requires Paced(run + [Tick(now)], g)
    requires w.stall.Some?
    requires exists i :: 0 <= i < |run| && run[i].In? && now < run[i].at + AsMillis(w.stall.value)
    ensures VerdictAt(w, run, now) != Some(Stalled(w.stall.value))
  {
    VerdictReadsHistory(w, run, now, g);
    StampsInOrder(run, g);
    if VerdictAt(w, run, now) == Some(Stalled(w.stall.value)) {
      StallSound(w, run, now, g);
    }
  }

  /** The idle verdict is exact: it is given when nothing moved for the deadline and there is no stall. */
  lemma {:induction false} IdleExact(w: Deadlines, run: seq<Event>, now: nat, g: nat)
    requires Paced(run + [Tick(now)], g)
    requires w.idle.Some?
    ensures VerdictAt(w, run, now) == Some(Idle(w.idle.value))
            <==> VerdictAt(Deadlines(w.stall, None), run, now).None?
                 && AsMillis(w.idle.value) <= now
                 && forall i :: 0 <= i < |run| && !run[i].Tick? ==> run[i].at + AsMillis(w.idle.value) <= now
  {
    VerdictReadsHistory(w, run, now, g);
    VerdictReadsHistory(Deadlines(w.stall, None), run, now, g);
    StampsInOrder(run, g);
    LatestMoveIsLatest(run, g);
  }

  lemma {:induction false} LatestMoveIsLatest(run: seq<Event>, g: nat)
    requires Paced(run, g)
    ensures forall i :: 0 <= i < |run| && !run[i].Tick? ==> run[i].at <= LatestMove(LastOut(run), LastIn(run))
    ensures (LastOut(run).Some? || LastIn(run).Some?) ==>
              exists i :: 0 <= i < |run| && !run[i].Tick? && run[i].at == LatestMove(LastOut(run), LastIn(run))
  {
    if run != [] {
      var before := run[..|run| - 1];
      StampsInOrder(before, g);
      LatestMoveIsLatest(before, g);
      if run[|run| - 1].Tick? && (LastOut(run).Some? || LastIn(run).Some?) {
        var i :| 0 <= i < |before| && !before[i].Tick? && before[i].at == LatestMove(LastOut(before), LastIn(before));
        assert !run[i].Tick? && run[i].at == LatestMove(LastOut(run), LastIn(run));
      } else if !run[|run| - 1].Tick? {
        assert run[|run| - 1].at == LatestMove(LastOut(run), LastIn(run));
      }
    }
  }

  // ---------------------------------------------------------------- completeness

  lemma {:induction false} LivePrefix(w: Deadlines, run: seq<Event>, k: nat)
    requires k <= |run| && Live(w, run)
    ensures Live(w, run[..k])
  {
    forall i | 0 <= i < k ensures !TripsAt(w, run[..k], i) {
      assert run[..k][..i] == run[..i];
      assert !TripsAt(w, run, i);
    }
  }

  /** At the last tick of a live run, neither deadline had passed. */
  lemma {:induction false} LiveAtLastTick(w: Deadlines, run: seq<Event>, g: nat)
    requires Paced(run, g) && Live(w, run)
    requires w.stall.Some? && After(run).since.Some?
    ensures LastTick(run) < After(run).since.value + AsMillis(w.stall.value)
  {
    if run != [] {
      var n := |run| - 1;
      LivePrefix(w, run, n);
      if run[n].Tick? {
        assert !TripsAt(w, run, n);
        assert run == run[..n] + [run[n]];
        VerdictReadsHistory(w, run[..n], run[n].at, g);
        ClockInvariant(run, g);
      } else {
        LiveAtLastTick(w, run[..n], g);
      }
    }
  }

  /**
   A splice whose oldest unanswered write is `F` does not outlive `F` by more than the deadline and
   two gaps; and whenever its clock is set, as it is once a tick has come after `F`, it does not
   outlive the clock by more than the deadline and one.
  */
  lemma {:induction false} StallComplete(w: Deadlines, run: seq<Event>, g: nat)
    requires Paced(run, g) && Live(w, run) && g > 0
    requires w.stall.Some? && FirstUnanswered(run).Some?
    ensures Now(run) < FirstUnanswered(run).value + AsMillis(w.stall.value) + 2 * g
    ensures FirstUnanswered(run).value < LastTick(run) ==> After(run).since.Some?
    ensures After(run).since.Some? ==> Now(run) < After(run).since.value + AsMillis(w.stall.value) + g
  {
    WithinGapOfTick(run, g);
    if After(run).since.Some? {
      LiveAtLastTick(w, run, g);
    }
    ClockInvariant(run, g);
  }

  lemma {:induction false} WithinGapOfTick(run: seq<Event>, g: nat)
    requires Paced(run, g)
    ensures Now(run) <= LastTick(run) + g
  {
    if run != [] {
      WithinGapOfTick(run[..|run| - 1], g);
    }
  }

  /** The reaper: a splice nothing moves on does not outlive its last movement by more than one gap. */
  lemma {:induction false} IdleComplete(w: Deadlines, run: seq<Event>, g: nat)
    requires Paced(run, g) && Live(w, run)
    requires w.idle.Some?
    ensures Now(run) <= LatestMove(LastOut(run), LastIn(run)) + AsMillis(w.idle.value) + g
    ensures AsMillis(w.idle.value) > 0 ==> Now(run) < LatestMove(LastOut(run), LastIn(run)) + AsMillis(w.idle.value) + g
  {
    WithinGapOfTick(run, g);
    IdleAtLastTick(w, run, g);
  }

  lemma {:induction false} IdleAtLastTick(w: Deadlines, run: seq<Event>, g: nat)
    requires Paced(run, g) && Live(w, run)
    requires w.idle.Some?
    ensures LastTick(run) < LatestMove(LastOut(run), LastIn(run)) + AsMillis(w.idle.value)
            || (LastTick(run) == 0 && AsMillis(w.idle.value) == 0)
  {
    if run != [] {
      var n := |run| - 1;
      LivePrefix(w, run, n);
      IdleAtLastTick(w, run[..n], g);
      assert run == run[..n] + [run[n]];
      if run[n].Tick? {
        assert !TripsAt(w, run, n);
        LiveTickIsNotIdle(w, run[..n], run[n].at, g);
      } else {
        StampsInOrder(run[..n], g);
      }
    }
  }

  lemma {:induction false} LiveTickIsNotIdle(w: Deadlines, run: seq<Event>, now: nat, g: nat)
    requires Paced(run + [Tick(now)], g) && w.idle.Some? && VerdictAt(w, run, now).None?
    ensures var ticked := run + [Tick(now)];
            && LastTick(ticked) == now
            && now < LatestMove(LastOut(ticked), LastIn(ticked)) + AsMillis(w.idle.value)
  {
    SnocReads(run, Tick(now));
    VerdictReadsHistory(w, run, now, g);
  }

  // ---------------------------------------------------------------- the period the ticker is given

  predicate Watched(w: Deadlines) { w.stall.Some? || w.idle.Some? }

  function CeilMillis(d: Duration): nat { (d + NANOS_PER_MILLI - 1) / NANOS_PER_MILLI }

  /** A period from 100 ms to 5 s that fits four times in every deadline that is set. */
  predicate Suits(w: Deadlines, q: Duration) {
    && 100 * NANOS_PER_MILLI <= q <= 5_000 * NANOS_PER_MILLI
    && (w.stall.Some? ==> 4 * q <= w.stall.value)
    && (w.idle.Some? ==> 4 * q <= w.idle.value)
  }

  /**
   With a deadline set, the period is the longest that suits, or 100 ms when none does; it fits four
   times in every deadline of at least 400 ms, whatever the other is. With none it is an hour.
  */
  lemma {:induction false} CheckPeriodIsLongest(w: Deadlines, q: Duration)
    ensures !Watched(w) ==> CheckPeriod(w) == 3_600_000 * NANOS_PER_MILLI
    ensures Watched(w) && Suits(w, q) ==> Suits(w, CheckPeriod(w)) && q <= CheckPeriod(w)
    ensures Watched(w) && !Suits(w, CheckPeriod(w)) ==> CheckPeriod(w) == 100 * NANOS_PER_MILLI && !Suits(w, q)
    ensures w.stall.Some? ==> (4 * CheckPeriod(w) <= w.stall.value <==> 400 * NANOS_PER_MILLI <= w.stall.value)
    ensures w.idle.Some? ==> (4 * CheckPeriod(w) <= w.idle.value <==> 400 * NANOS_PER_MILLI <= w.idle.value)
  {
  }

  /** What the paced theorems need of it. */
  lemma {:induction false} CheckPeriodBounds(w: Deadlines)
    requires Watched(w)
    ensures FLOOR <= CheckPeriod(w) <= CEILING
    ensures 4 * CheckPeriod(w) <= SmallestDeadline(w) <==> 400 * NANOS_PER_MILLI <= SmallestDeadline(w)
  {
  }

  /** The ticker fires on a grid; in whole milliseconds its ticks are at most the rounded-up period apart. */
  lemma {:induction false} GridGap(offset: Duration, k: nat, period: Duration)
    ensures AsMillis(offset + k * period) <= AsMillis(offset + (k + 1) * period)
            <= AsMillis(offset + k * period) + CeilMillis(period)
  {
    var t := offset + k * period;
    assert offset + (k + 1) * period == t + period;
    DivGrows(t, period);
  }

  lemma {:induction false} DivGrows(t: nat, d: nat)
    ensures t / NANOS_PER_MILLI <= (t + d) / NANOS_PER_MILLI <= t / NANOS_PER_MILLI + CeilMillis(d)
  {
  }

  /**
   With the period the code picks, and no deadline under 400 ms, a stall is told within one and a half
   deadlines of the first unanswered write, up to rounding to the millisecond.
  */
  lemma {:induction false} PacedStallToldInTime(w: Deadlines, run: seq<Event>)
    requires Paced(run, CeilMillis(CheckPeriod(w))) && Live(w, run)
    requires w.stall.Some? && 400 * NANOS_PER_MILLI <= SmallestDeadline(w)
    requires w.stall.value < U64_LIMIT * NANOS_PER_MILLI
    requires FirstUnanswered(run).Some?
    ensures 2 * Now(run) < 2 * FirstUnanswered(run).value + 3 * AsMillis(w.stall.value) + 4
  {
    var g := CeilMillis(CheckPeriod(w));
    CheckPeriodBounds(w);
    assert 4 * CheckPeriod(w) <= w.stall.value < (AsMillis(w.stall.value) + 1) * NANOS_PER_MILLI;
    assert g > 0 && g * NANOS_PER_MILLI < CheckPeriod(w) + NANOS_PER_MILLI;
    StallComplete(w, run, g);
  }
}
