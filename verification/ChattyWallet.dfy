/**
 A wallet that keeps writing cannot postpone the stall deadline.

 Two runs share every answer and every tick, and the second has extra writes anywhere between them.
 If the first is cut off at a tick, the second is cut off at that tick or at the next one, unless the
 far side answers in between.
*/
module ChattyWallet {
  import opened Wrappers
  import opened Splice
  import opened SpliceRuns
  import opened SpliceGrid

  /** An event both runs have, or a write only the chattier one makes. */
  datatype Paired = Common(e: Event) | Extra(n: nat, at: nat)

  /** The run with the extra writes. */
  function Chatty(m: seq<Paired>): seq<Event> {
    if m == [] then []
    else Chatty(m[..|m| - 1]) +
         match m[|m| - 1] { case Common(e) => [e] case Extra(n, at) => [Out(n, at)] }
  }

  /** The run without them. */
  function Quiet(m: seq<Paired>): seq<Event> {
    if m == [] then []
    else Quiet(m[..|m| - 1]) +
         match m[|m| - 1] { case Common(e) => [e] case Extra(_, _) => [] }
  }

  predicate IsTick(p: Paired) { p.Common? && p.e.Tick? }

  /** Writes and ticks, and no answer. */
  predicate NoAnswers(q: seq<Paired>) {
    forall i :: 0 <= i < |q| && q[i].Common? ==> !q[i].e.In?
  }

  lemma {:induction false} Cut(m: seq<Paired>, p: Paired)
    ensures (m + [p])[..|m + [p]| - 1] == m && (m + [p])[|m + [p]| - 1] == p
  {
  }

  /** The event a pair stands for in the chattier run. */
  function EventOf(p: Paired): Event {
    match p
    case Common(e) => e
    case Extra(n, at) => Out(n, at)
  }

  lemma {:induction false} BothRuns(m: seq<Paired>)
    requires m != []
    ensures var before, p := m[..|m| - 1], m[|m| - 1];
            && Chatty(m) == Chatty(before) + [EventOf(p)]
            && Quiet(m) == if p.Common? then Quiet(before) + [EventOf(p)] else Quiet(before)
  {
  }

  /** What the two runs have in common: ticks and answers; and the chattier one wrote at least as much, as late. */
  predicate Shadows(quiet: seq<Event>, chatty: seq<Event>) {
    && Now(quiet) <= Now(chatty)
    && LastTick(quiet) == LastTick(chatty) && LastIn(quiet) == LastIn(chatty)
    && (LastOut(quiet).Some? ==> LastOut(chatty).Some? && LastOut(quiet).value <= LastOut(chatty).value)
    && BytesOut(quiet) <= BytesOut(chatty) && BytesIn(quiet) == BytesIn(chatty)
  }

  lemma {:induction false} QuietIsPaced(m: seq<Paired>, g: nat)
    requires Paced(Chatty(m), g)
    ensures Paced(Quiet(m), g) && Shadows(Quiet(m), Chatty(m))
  {
    if m != [] {
      var before, p := m[..|m| - 1], m[|m| - 1];
      BothRuns(m);
      var c, q, e := Chatty(before), Quiet(before), EventOf(p);
      SnocPaced(c, e, g);
      SnocPaced(q, e, g);
      SnocReads(c, e);
      SnocReads(q, e);
      QuietIsPaced(before, g);
      StampsInOrder(c, g);
    }
  }

  /** Whenever the quiet run's clock is set so is the chatty one's, at most one gap later. */
  predicate AtMostOneGapBehind(quiet: Option<nat>, chatty: Option<nat>, tick: nat, g: nat) {
    && (chatty.Some? ==> chatty.value <= tick)
    && (quiet.Some? ==> chatty.Some? && chatty.value <= quiet.value + g)
  }

  /** One tick at `now`, on what the two runs read. A clock that starts does so from a write since the last tick. */
  lemma {:induction false} TickKeepsGap(quiet: Option<nat>, chatty: Option<nat>,
      quietWrote: Option<nat>, chattyWrote: Option<nat>, heard: Option<nat>, tick: nat, now: nat, g: nat)
    requires AtMostOneGapBehind(quiet, chatty, tick, g) && tick <= now <= tick + g
    requires quietWrote.Some? ==> chattyWrote.Some? && quietWrote.value <= chattyWrote.value
    requires chattyWrote.GetOr(0) <= now && heard.GetOr(0) <= now
    requires quiet.None? && Outstanding(quietWrote, heard) ==> tick <= quietWrote.value
    ensures AtMostOneGapBehind(NextSince(quiet, quietWrote, heard), NextSince(chatty, chattyWrote, heard), now, g)
  {
  }

  lemma {:induction false} ClocksStayClose(m: seq<Paired>, g: nat)
    requires Paced(Chatty(m), g)
    ensures AtMostOneGapBehind(After(Quiet(m)).since, After(Chatty(m)).since, LastTick(Chatty(m)), g)
  {
    if m != [] {
      var before, p := m[..|m| - 1], m[|m| - 1];
      BothRuns(m);
      var c, q, e := Chatty(before), Quiet(before), EventOf(p);
      SnocPaced(c, e, g);
      SnocReads(c, e);
      SnocReads(q, e);
      ClocksStayClose(before, g);
      if e.Tick? {
        QuietIsPaced(before, g);
        ClockInvariant(q, g);
        CountersExact(c, g);
        StampsInOrder(c, g);
        TickKeepsGap(After(q).since, After(c).since, LastOut(q), LastOut(c), LastIn(c), LastTick(c), e.at, g);
      }
    }
  }

  /** From one run to the other, the clock and the last answer are as they were, and something is unanswered. */
  ghost predicate Held(start: seq<Event>, run: seq<Event>) {
    After(run).since == After(start).since && LastIn(run) == LastIn(start) && FirstUnanswered(run).Some?
  }

  /** The clock is set, and no earlier than the last answer. */
  ghost predicate SetSinceHeard(run: seq<Event>) {
    After(run).since.Some? && LastIn(run).GetOr(0) <= After(run).since.value
  }

  /** While nothing is heard, a clock that is set stays as it is, through any writes and ticks. */
  lemma {:induction false} SilenceLeavesTheClock(m: seq<Paired>, q: seq<Paired>, g: nat)
    requires Paced(Chatty(m + q), g) && NoAnswers(q)
    requires SetSinceHeard(Chatty(m)) && FirstUnanswered(Chatty(m)).Some?
    ensures Held(Chatty(m), Chatty(m + q))
  {
    if q == [] {
      assert m + q == m;
    } else {
      var r, p := q[..|q| - 1], q[|q| - 1];
      ChattyGrows(m, q);
      SnocPaced(Chatty(m + r), EventOf(p), g);
      SilenceLeavesTheClock(m, r, g);
      SilentStep(Chatty(m), Chatty(m + r), EventOf(p), g);
    }
  }

  lemma {:induction false} ChattyGrows(m: seq<Paired>, q: seq<Paired>)
    requires q != []
    ensures Chatty(m + q) == Chatty(m + q[..|q| - 1]) + [EventOf(q[|q| - 1])]
  {
    assert (m + q)[..|m + q| - 1] == m + q[..|q| - 1];
    BothRuns(m + q);
  }

  lemma {:induction false} SilentStep(start: seq<Event>, run: seq<Event>, e: Event, g: nat)
    requires Paced(run, g) && !e.In? && Held(start, run) && SetSinceHeard(start)
    ensures Held(start, run + [e])
  {
    Snoc(run, e);
    SnocReads(run, e);
    ClockInvariant(run, g);
  }

  lemma {:induction false} TickExtends(m: seq<Paired>, now: nat)
    ensures var ticked := m + [Common(Tick(now))];
            Chatty(ticked) == Chatty(m) + [Tick(now)] && Quiet(ticked) == Quiet(m) + [Tick(now)]
  {
    Cut(m, Common(Tick(now)));
    BothRuns(m + [Common(Tick(now))]);
  }

  /** With a stall deadline only, a verdict is the clock against the deadline. */
  lemma {:induction false} StalledIff(w: Deadlines, run: seq<Event>, now: nat)
    requires w.stall.Some? && w.idle.None?
    ensures var since := After(run + [Tick(now)]).since;
            VerdictAt(w, run, now) ==
              if since.Some? && Expired(now, since.value, w.stall) then Some(Stalled(w.stall.value)) else None
  {
  }

  /**
   Suppose the run without the extra writes is cut off at `tick`. Then the run with them is cut off
   there too, or at any tick a gap or more later, whatever comes in between, unless an answer does.
  */
  lemma {:induction false} ChattyWalletCannotPostpone(w: Deadlines, m: seq<Paired>, tick: nat,
      q: seq<Paired>, next: nat, g: nat)
    requires w.stall.Some? && w.idle.None?
    requires Paced(Chatty(m + [Common(Tick(tick))] + q + [Common(Tick(next))]), g)
    requires NoAnswers(q) && tick + g <= next
    requires VerdictAt(w, Quiet(m), tick).Some?
    ensures VerdictAt(w, Chatty(m), tick) == Some(Stalled(w.stall.value))
            || VerdictAt(w, Chatty(m + [Common(Tick(tick))] + q), next) == Some(Stalled(w.stall.value))
  {
    var at, rest := m + [Common(Tick(tick))], q + [Common(Tick(next))];
    assert at + q + [Common(Tick(next))] == at + rest;
    TickExtends(m, tick);
    TickExtends(at + q, next);
    PacedPrefix(at, rest, g);
    ClocksStayClose(at, g);
    StalledIff(w, Quiet(m), tick);
    StalledIff(w, Chatty(m), tick);
    StalledIff(w, Chatty(at + q), next);
    SetClockLasts(at, rest, g);
  }

  /** A clock set by a tick is still what it was once only silence has followed. */
  lemma {:induction false} SetClockLasts(at: seq<Paired>, rest: seq<Paired>, g: nat)
    requires Paced(Chatty(at + rest), g) && NoAnswers(rest)
    requires at != [] && IsTick(at[|at| - 1])
    requires After(Chatty(at)).since.Some?
    ensures After(Chatty(at + rest)).since == After(Chatty(at)).since
  {
    PacedPrefix(at, rest, g);
    BothRuns(at);
    SampledClockTracksIdeal(Chatty(at), g);
    SilenceLeavesTheClock(at, rest, g);
  }

  lemma {:induction false} PacedPrefix(m: seq<Paired>, q: seq<Paired>, g: nat)
    requires Paced(Chatty(m + q), g)
    ensures Paced(Chatty(m), g)
  {
    if q == [] {
      assert m + q == m;
    } else {
      var r := q[..|q| - 1];
      ChattyGrows(m, q);
      SnocPaced(Chatty(m + r), EventOf(q[|q| - 1]), g);
      PacedPrefix(m, r, g);
    }
  }

  // ---------------------------------------------------------------- on the grid

  lemma {:induction false} QuietIsOnTime(m: seq<Paired>, p: nat)
    requires OnTime(Chatty(m), p)
    ensures OnTime(Quiet(m), p) && Ticks(Quiet(m)) == Ticks(Chatty(m)) && Shadows(Quiet(m), Chatty(m))
  {
    OnTimeIsPaced(Chatty(m), p);
    QuietIsPaced(m, p);
    if m != [] {
      var before, e := m[..|m| - 1], EventOf(m[|m| - 1]);
      BothRuns(m);
      OnTimeSnoc(Chatty(before), e, p);
      OnTimeSnoc(Quiet(before), e, p);
      QuietIsOnTime(before, p);
    }
  }

  predicate ByNextTick(quiet: Option<nat>, chatty: Option<nat>, p: nat)
    requires p > 0
  {
    quiet.Some? ==> chatty.Some? && chatty.value <= NextTick(quiet.value, p)
  }

  /** Extra writes start the clock no later than the tick after it starts without them. */
  lemma {:induction false} ClocksMeetByNextTick(m: seq<Paired>, p: nat)
    requires OnTime(Chatty(m), p) && p > 0
    ensures ByNextTick(After(Quiet(m)).since, After(Chatty(m)).since, p)
  {
    if m != [] {
      var before, e := m[..|m| - 1], EventOf(m[|m| - 1]);
      BothRuns(m);
      OnTimeSnoc(Chatty(before), e, p);
      SnocReads(Chatty(before), e);
      SnocReads(Quiet(before), e);
      ClocksMeetByNextTick(before, p);
      if e.Tick? {
        TickMeetsByNext(before, e.at, p);
      }
    }
  }

  lemma {:induction false} TickMeetsByNext(m: seq<Paired>, now: nat, p: nat)
    requires p > 0 && OnTime(Chatty(m) + [Tick(now)], p)
    requires ByNextTick(After(Quiet(m)).since, After(Chatty(m)).since, p)
    ensures ByNextTick(After(Quiet(m) + [Tick(now)]).since, After(Chatty(m) + [Tick(now)]).since, p)
  {
    var c, q := Chatty(m), Quiet(m);
    SnocReads(c, Tick(now));
    SnocReads(q, Tick(now));
    OnTimeSnoc(c, Tick(now), p);
    ReadingsOnTime(m, p);
    TickMeets(After(q).since, After(c).since, LastOut(q), LastOut(c), LastIn(c), Ticks(c), p);
  }

  /** What the two runs read, and that a clock not yet set is so only of writes since the last tick. */
  lemma {:induction false} ReadingsOnTime(m: seq<Paired>, p: nat)
    requires OnTime(Chatty(m), p)
    ensures var c, q, tick := Chatty(m), Quiet(m), Times(Ticks(Chatty(m)), p);
            && After(q).Wrote() == LastOut(q) && After(q).Heard() == LastIn(c)
            && After(c).Wrote() == LastOut(c) && After(c).Heard() == LastIn(c)
            && (LastOut(q).Some? ==> LastOut(c).Some? && LastOut(q).value <= LastOut(c).value)
            && LastOut(c).GetOr(0) <= tick + p && LastIn(c).GetOr(0) <= tick + p
            && (After(q).since.None? && Outstanding(LastOut(q), LastIn(c)) ==> tick <= LastOut(q).value)
            && (After(c).since.Some? ==> After(c).since.value <= tick)
  {
    QuietIsOnTime(m, p);
    OnTimeIsPaced(Chatty(m), p);
    OnTimeIsPaced(Quiet(m), p);
    StampsInOrder(Chatty(m), p);
    ClockInvariant(Quiet(m), p);
    ClockInvariant(Chatty(m), p);
  }

  /** One tick on the grid, on what the two runs read. */
  lemma {:induction false} TickMeets(quiet: Option<nat>, chatty: Option<nat>,
      quietWrote: Option<nat>, chattyWrote: Option<nat>, heard: Option<nat>, k: nat, p: nat)
    requires p > 0 && ByNextTick(quiet, chatty, p)
    requires chatty.Some? ==> chatty.value <= Times(k, p)
    requires quietWrote.Some? ==> chattyWrote.Some? && quietWrote.value <= chattyWrote.value
    requires chattyWrote.GetOr(0) <= Times(k, p) + p && heard.GetOr(0) <= Times(k, p) + p
    requires quiet.None? && Outstanding(quietWrote, heard) ==> Times(k, p) <= quietWrote.value
    ensures ByNextTick(NextSince(quiet, quietWrote, heard), NextSince(chatty, chattyWrote, heard), p)
  {
    if Outstanding(quietWrote, heard) {
      if quiet.None? {
        StartsByNextTick(k, quietWrote.value, p);
        assert Times(k + 1, p) == Times(k, p) + p;
      } else {
        NextTickGrows(quiet.value, Max(quiet.value, heard.GetOr(0)), p);
      }
    }
  }

  /**
   On the grid the extra writes buy one tick at most: if the run without them is cut off at `tick`, the
   run with them is cut off there too or at the very next tick, unless the far side answers in between.
  */
  lemma {:induction false} NextTickIsEnough(w: Deadlines, m: seq<Paired>, tick: nat, q: seq<Paired>, next: nat, p: nat)
    requires w.stall.Some? && w.idle.None? && p > 0
    requires OnTime(Chatty(m + [Common(Tick(tick))] + q + [Common(Tick(next))]), p) && NoAnswers(q)
    requires VerdictAt(w, Quiet(m), tick).Some?
    ensures VerdictAt(w, Chatty(m), tick) == Some(Stalled(w.stall.value))
            || VerdictAt(w, Chatty(m + [Common(Tick(tick))] + q), next) == Some(Stalled(w.stall.value))
  {
    OnTimeIsPaced(Chatty(m + [Common(Tick(tick))] + q + [Common(Tick(next))]), p);
    NextTickIsAPeriodOn(m, tick, q, next, p);
    ChattyWalletCannotPostpone(w, m, tick, q, next, p);
  }

  lemma {:induction false} NextTickIsAPeriodOn(m: seq<Paired>, tick: nat, q: seq<Paired>, next: nat, p: nat)
    requires p > 0 && OnTime(Chatty(m + [Common(Tick(tick))] + q + [Common(Tick(next))]), p)
    ensures tick + p <= next
  {
    var at := m + [Common(Tick(tick))];
    StampOfTick(at + q, next, p);
    TicksOnly(at, q, p);
    StampOfTick(m, tick, p);
    APeriodOn(Ticks(Chatty(at)), Ticks(Chatty(at + q)) + 1, p);
  }

  lemma {:induction false} StampOfTick(m: seq<Paired>, now: nat, p: nat)
    requires OnTime(Chatty(m + [Common(Tick(now))]), p)
    ensures OnTime(Chatty(m), p)
    ensures now == Times(Ticks(Chatty(m)) + 1, p) == Times(Ticks(Chatty(m + [Common(Tick(now))])), p)
  {
    TickExtends(m, now);
    OnTimeSnoc(Chatty(m), Tick(now), p);
  }

  lemma {:induction false} TicksOnly(m: seq<Paired>, q: seq<Paired>, p: nat)
    requires OnTime(Chatty(m + q), p)
    ensures OnTime(Chatty(m), p) && Ticks(Chatty(m)) <= Ticks(Chatty(m + q))
  {
    if q == [] {
      assert m + q == m;
    } else {
      var r := q[..|q| - 1];
      ChattyGrows(m, q);
      OnTimeSnoc(Chatty(m + r), EventOf(q[|q| - 1]), p);
      TicksOnly(m, r, p);
    }
  }

  // ---------------------------------------------------------------- when they buy nothing

  /** Neither run has been ended, and the tick at `now` leaves the quiet one's clock at `since` and ends that run. */
  ghost predicate QuietEnds(w: Deadlines, m: seq<Paired>, now: nat, since: nat, p: nat) {
    && OnTime(Chatty(m) + [Tick(now)], p)
    && Live(w, Quiet(m)) && Live(w, Chatty(m))
    && After(Quiet(m) + [Tick(now)]).since == Some(since)
    && VerdictAt(w, Quiet(m), now).Some?
  }

  /** Whatever is written besides, at whatever moments, a tick that ends the quiet run ends the chatty one. */
  ghost predicate NothingToBuy(w: Deadlines, since: nat, p: nat) {
    forall m: seq<Paired>, now: nat | QuietEnds(w, m, now, since, p) :: VerdictAt(w, Chatty(m), now).Some?
  }

  /**
   The extra writes buy nothing exactly when the stamp the quiet clock stands at is further into its
   period than the deadline is short of whole periods; for a deadline of whole periods, when that
   stamp is not on a tick. Otherwise they buy the next tick.
  */
  lemma {:induction false} NothingToBuyIff(w: Deadlines, since: nat, p: nat)
    requires TicksEvery(w, p) && w.stall.Some? && w.idle.None? && AsMillis(w.stall.value) > 0
    ensures NothingToBuy(w, since, p) <==> Into(since, p) > Slack(AsMillis(w.stall.value), p)
  {
    if Into(since, p) > Slack(AsMillis(w.stall.value), p) {
      forall m: seq<Paired>, now: nat | QuietEnds(w, m, now, since, p) ensures VerdictAt(w, Chatty(m), now).Some? {
        LateStampBuysNothing(w, m, now, since, p);
      }
    } else {
      var m, now := EarlyStampBuys(w, since, p);
    }
  }

  /** The clock only ever stands at the stamp of a write or an answer. */
  lemma {:induction false} ClockIsAStamp(run: seq<Event>, g: nat) returns (i: nat)
    requires Paced(run, g) && After(run).since.Some?
    ensures i < |run| && !run[i].Tick? && run[i].at == After(run).since.value
  {
    i := |run| - 1;
    var before := run[..i];
    if run[i].Tick? {
      CountersExact(before, g);
      var since, heard := After(before).since, LastIn(before);
      if heard.Some? && heard.value == After(run).since.value {
        i := LastInAt(before);
      } else if since.Some? {
        i := ClockIsAStamp(before, g);
      } else {
        i := LastOutAt(before);
      }
    } else {
      i := ClockIsAStamp(before, g);
    }
  }

  lemma {:induction false} LastOutAt(run: seq<Event>) returns (i: nat)
    requires LastOut(run).Some?
    ensures i < |run| && run[i].Out? && run[i].at == LastOut(run).value
  {
    i := |run| - 1;
    if !run[i].Out? {
      i := LastOutAt(run[..i]);
    }
  }

  lemma {:induction false} LateStampBuysNothing(w: Deadlines, m: seq<Paired>, now: nat, since: nat, p: nat)
    requires w.stall.Some? && w.idle.None? && p > 0 && QuietEnds(w, m, now, since, p)
    requires Into(since, p) > Slack(AsMillis(w.stall.value), p)
    ensures VerdictAt(w, Chatty(m), now).Some?
  {
    TickExtends(m, now);
    ClocksMeetByNextTick(m + [Common(Tick(now))], p);
    OnTimeSnoc(Chatty(m), Tick(now), p);
    StalledIff(w, Quiet(m), now);
    StalledIff(w, Chatty(m), now);
    if SaturatingSub(now, since) >= AsMillis(w.stall.value) && now >= since {
      LateInPeriod(Ticks(Chatty(m)) + 1, since, AsMillis(w.stall.value), p);
    }
  }

  // ---------------------------------------------------------------- the next tick is bought

  ghost predicate BothReached(w: Deadlines, p: nat, m: seq<Paired>, quiet: Status, chatty: Status) {
    Reached(w, p, Quiet(m), quiet) && Reached(w, p, Chatty(m), chatty)
  }

  lemma {:induction false} BothGoOn(w: Deadlines, p: nat, m: seq<Paired>, quiet: Status, chatty: Status, e: Event)
    returns (on: seq<Paired>)
    requires BothReached(w, p, m, quiet, chatty) && Goes(w, p, quiet, e) && Goes(w, p, chatty, e)
    ensures BothReached(w, p, on, Next(quiet, e), Next(chatty, e))
  {
    on := m + [Common(e)];
    Cut(m, Common(e));
    BothRuns(on);
    GoesOn(w, p, Quiet(m), quiet, e);
    GoesOn(w, p, Chatty(m), chatty, e);
  }

  lemma {:induction false} ExtraGoesOn(w: Deadlines, p: nat, m: seq<Paired>, quiet: Status, chatty: Status,
      n: nat, at: nat)
    returns (on: seq<Paired>)
    requires BothReached(w, p, m, quiet, chatty) && Goes(w, p, chatty, Out(n, at))
    ensures BothReached(w, p, on, quiet, Next(chatty, Out(n, at)))
  {
    on := m + [Extra(n, at)];
    Cut(m, Extra(n, at));
    BothRuns(on);
    GoesOn(w, p, Chatty(m), chatty, Out(n, at));
  }

  lemma {:induction false} BothIdle(w: Deadlines, p: nat, k: nat) returns (m: seq<Paired>, st: Status)
    requires w.idle.None?
    ensures BothReached(w, p, m, st, st) && AtRest(st, k, p)
  {
    if k == 0 {
      m := [];
      st := NothingYet(w, p);
    } else {
      m, st := BothIdle(w, p, k - 1);
      TickAtRest(w, p, st, k - 1);
      m := BothGoOn(w, p, m, st, st, Tick(Times(k, p)));
      st := Next(st, Tick(Times(k, p)));
    }
  }

  /** The quiet run writes at `since`, and the chatty one again just before the next tick. */
  lemma {:induction false} OneExtra(w: Deadlines, p: nat, since: nat)
    returns (m: seq<Paired>, quiet: Status, chatty: Status)
    requires p > 0 && w.idle.None?
    ensures BothReached(w, p, m, quiet, chatty)
    ensures quiet.ticks == Past(since, p) && quiet.now == since && Waits(quiet, since, None, None, since)
    ensures chatty.ticks == Past(since, p) && chatty.now == NextTick(since, p)
    ensures Waits(chatty, NextTick(since, p), None, None, since)
  {
    var resting;
    m, resting := BothIdle(w, p, Past(since, p));
    quiet := Next(resting, Out(1, since));
    m := BothGoOn(w, p, m, resting, resting, Out(1, since));
    chatty := Next(quiet, Out(1, NextTick(since, p)));
    m := ExtraGoesOn(w, p, m, quiet, quiet, 1, NextTick(since, p));
  }

  lemma {:induction false} BothTick(w: Deadlines, p: nat, m: seq<Paired>, quiet: Status, chatty: Status, j: nat)
    returns (on: seq<Paired>)
    requires w.stall.Some? && w.idle.None? && AsMillis(w.stall.value) > 0 && p > 0
    requires BothReached(w, p, m, quiet, chatty) && quiet.ticks == chatty.ticks
    requires TicksLive(w, p, quiet, j) && TicksLive(w, p, chatty, j)
    ensures BothReached(w, p, on, Ticked(quiet, j, p), Ticked(chatty, j, p))
  {
    on := m;
    if j > 0 {
      LiveBefore(w, p, quiet, j - 1);
      LiveBefore(w, p, chatty, j - 1);
      on := BothTick(w, p, m, quiet, chatty, j - 1);
      on := BothTickOnce(w, p, on, quiet, chatty, j);
    }
  }

  lemma {:induction false} BothTickOnce(w: Deadlines, p: nat, m: seq<Paired>, quiet: Status, chatty: Status, j: nat)
    returns (on: seq<Paired>)
    requires w.stall.Some? && w.idle.None? && AsMillis(w.stall.value) > 0 && j > 0 && quiet.ticks == chatty.ticks
    requires TicksLive(w, p, quiet, j) && TicksLive(w, p, chatty, j)
    requires BothReached(w, p, m, Ticked(quiet, j - 1, p), Ticked(chatty, j - 1, p))
    ensures BothReached(w, p, on, Ticked(quiet, j, p), Ticked(chatty, j, p))
  {
    OneMoreTick(w, p, quiet, j);
    OneMoreTick(w, p, chatty, j);
    var e := Tick(Times(quiet.ticks + j, p));
    on := BothGoOn(w, p, m, Ticked(quiet, j - 1, p), Ticked(chatty, j - 1, p), e);
  }

  /** One write just before a tick puts the clock there, and by a stamp early in its period that is a tick more. */
  lemma {:induction false} EarlyStampBuys(w: Deadlines, since: nat, p: nat) returns (m: seq<Paired>, now: nat)
    requires TicksEvery(w, p) && w.stall.Some? && w.idle.None? && AsMillis(w.stall.value) > 0
    requires Into(since, p) <= Slack(AsMillis(w.stall.value), p)
    ensures QuietEnds(w, m, now, since, p) && VerdictAt(w, Chatty(m), now).None?
  {
    var start, quiet, chatty := OneExtra(w, p, since);
    EarlyStampLives(w, since, p, quiet, chatty);
    m, now := OneRunsOut(w, p, start, quiet, chatty, Periods(AsMillis(w.stall.value), p) - 1);
  }

  lemma {:induction false} EarlyStampLives(w: Deadlines, since: nat, p: nat, quiet: Status, chatty: Status)
    requires p > 0 && w.stall.Some? && AsMillis(w.stall.value) > 0
    requires Into(since, p) <= Slack(AsMillis(w.stall.value), p)
    requires quiet.ticks == Past(since, p) && quiet.now == since && Waits(quiet, since, None, None, since)
    requires chatty.ticks == Past(since, p) && chatty.now == NextTick(since, p)
    requires Waits(chatty, NextTick(since, p), None, None, since)
    ensures var m := Periods(AsMillis(w.stall.value), p);
            && TicksLive(w, p, quiet, m - 1) && TicksLive(w, p, chatty, m)
            && ClockNext(quiet.activity) == since
            && since + AsMillis(w.stall.value) <= Times(quiet.ticks + m, p)
  {
    EarlyAges(since, AsMillis(w.stall.value), p);
    FirstTick(quiet, since, since);
    FirstTick(chatty, NextTick(since, p), since);
  }

  /** The clock starts at the last write. */
  lemma {:induction false} FirstTick(st: Status, wrote: nat, first: nat)
    requires Waits(st, wrote, None, None, first)
    ensures Outstanding(st.activity.Wrote(), st.activity.Heard()) && ClockNext(st.activity) == wrote
  {
  }

  /** Ticks on from a pair of runs until only the quiet one's clock runs out. */
  lemma {:induction false} OneRunsOut(w: Deadlines, p: nat, start: seq<Paired>, quiet: Status, chatty: Status, j: nat)
    returns (m: seq<Paired>, now: nat)
    requires w.stall.Some? && w.idle.None? && AsMillis(w.stall.value) > 0 && p > 0
    requires BothReached(w, p, start, quiet, chatty) && quiet.ticks == chatty.ticks
    requires TicksLive(w, p, quiet, j) && TicksLive(w, p, chatty, j + 1)
    requires ClockNext(quiet.activity) + AsMillis(w.stall.value) <= Times(quiet.ticks + j + 1, p)
    ensures QuietEnds(w, m, now, ClockNext(quiet.activity), p) && VerdictAt(w, Chatty(m), now).None?
  {
    now := Times(quiet.ticks + j + 1, p);
    LiveBefore(w, p, chatty, j);
    m := BothTick(w, p, start, quiet, chatty, j);
    LastTickTells(w, p, quiet, chatty, j);
    EndsQuiet(w, p, m, Ticked(quiet, j, p), Ticked(chatty, j, p), now);
  }

  lemma {:induction false} LastTickTells(w: Deadlines, p: nat, quiet: Status, chatty: Status, j: nat)
    requires w.stall.Some? && w.idle.None? && AsMillis(w.stall.value) > 0 && quiet.ticks == chatty.ticks
    requires TicksLive(w, p, quiet, j) && TicksLive(w, p, chatty, j + 1)
    requires ClockNext(quiet.activity) + AsMillis(w.stall.value) <= Times(quiet.ticks + j + 1, p)
    ensures var now, q := Times(quiet.ticks + j + 1, p), Ticked(quiet, j, p).activity;
            && Goes(w, p, Ticked(chatty, j, p), Tick(now))
            && Outstanding(q.Wrote(), q.Heard()) && ClockNext(q) == ClockNext(quiet.activity)
            && TickVerdict(w, q, now).Some?
  {
    RunsOut(w, p, quiet, j, Times(quiet.ticks + j + 1, p));
    OneMoreTick(w, p, chatty, j + 1);
  }

  lemma {:induction false} EndsQuiet(w: Deadlines, p: nat, m: seq<Paired>, quiet: Status, chatty: Status, now: nat)
    requires BothReached(w, p, m, quiet, chatty) && Goes(w, p, chatty, Tick(now))
    requires Outstanding(quiet.activity.Wrote(), quiet.activity.Heard()) && TickVerdict(w, quiet.activity, now).Some?
    ensures QuietEnds(w, m, now, ClockNext(quiet.activity), p) && VerdictAt(w, Chatty(m), now).None?
  {
    OnTimeSnoc(Chatty(m), Tick(now), p);
    SnocReads(Chatty(m), Tick(now));
    SnocReads(Quiet(m), Tick(now));
    VerdictOf(w, Quiet(m), now);
    VerdictOf(w, Chatty(m), now);
  }
}
