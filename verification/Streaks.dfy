/**
 Whether anything is getting through right now: two runs folded one dial at a time, under one lock,
 and published in three places.
*/
module Streaks {
  import opened Wrappers

  const REFUSAL_LIMIT: nat := 5
  const DEAD_END_LIMIT: nat := 3

  datatype Outcome = Answered | Unprobed | NothingOpened | NothingAnswered

  datatype Counts = Counts(refusals: nat, deadEnds: nat)

  function Updated(c: Counts, o: Outcome): Counts {
    match o
    case Answered => Counts(0, 0)
    case Unprobed => c.(refusals := 0)
    case NothingOpened => Counts(c.refusals + 1, c.deadEnds + 1)
    case NothingAnswered => Counts(0, c.deadEnds + 1)
  }

  function FoldAll(history: seq<Outcome>): Counts {
    if history == [] then Counts(0, 0) else Updated(FoldAll(history[..|history| - 1]), history[|history| - 1])
  }

  // ---------------------------------------------------------------- what the two runs mean

  /** The last `n` dials, and no more, had every open refused. */
  predicate IsRefusalRun(history: seq<Outcome>, n: nat) {
    && n <= |history|
    && (forall i :: |history| - n <= i < |history| ==> history[i] == NothingOpened)
    && (n < |history| ==> history[|history| - n - 1] != NothingOpened)
  }

  /** Nothing has answered since `k`, and something had just before it unless there is no before. */
  predicate SinceAnswer(history: seq<Outcome>, k: nat) {
    && k <= |history|
    && (k > 0 ==> history[k - 1] == Answered)
    && forall i :: k <= i < |history| ==> history[i] != Answered
  }

  function Failed(history: seq<Outcome>): nat {
    multiset(history)[NothingOpened] + multiset(history)[NothingAnswered]
  }

  /** `n` dials have ended with nothing since the last that answered; unprobed ones are passed over. */
  ghost predicate IsDeadEndRun(history: seq<Outcome>, n: nat) {
    exists k: nat :: SinceAnswer(history, k) && n == Failed(history[k..])
  }

  /** The counts are exactly the two runs. */
  lemma {:induction false} CountsAreRuns(history: seq<Outcome>, n: nat)
    ensures n == FoldAll(history).refusals <==> IsRefusalRun(history, n)
    ensures n == FoldAll(history).deadEnds <==> IsDeadEndRun(history, n)
  {
    RefusalsAreARun(history);
    OneRefusalRun(history, n, FoldAll(history).refusals);
    var k := DeadEndsAreARun(history);
    if IsDeadEndRun(history, n) {
      var j: nat :| SinceAnswer(history, j) && n == Failed(history[j..]);
      OneAnswerPoint(history, j, k);
    }
  }

  lemma {:induction false} RefusalsAreARun(history: seq<Outcome>)
    ensures IsRefusalRun(history, FoldAll(history).refusals)
  {
    if history != [] {
      RefusalsAreARun(history[..|history| - 1]);
    }
  }

  lemma {:induction false} OneRefusalRun(history: seq<Outcome>, m: nat, n: nat)
    ensures IsRefusalRun(history, m) && IsRefusalRun(history, n) ==> m == n
  {
  }

  lemma {:induction false} DeadEndsAreARun(history: seq<Outcome>) returns (k: nat)
    ensures SinceAnswer(history, k) && FoldAll(history).deadEnds == Failed(history[k..])
  {
    if history == [] {
      k := 0;
    } else {
      var before, o := history[..|history| - 1], history[|history| - 1];
      k := DeadEndsAreARun(before);
      assert history == before + [o];
      if o == Answered {
        k := |history|;
        assert history[k..] == [];
      } else {
        StillSinceAnswer(before, o, k);
        OneMoreFailed(before[k..], o);
      }
    }
  }

  lemma {:induction false} StillSinceAnswer(history: seq<Outcome>, o: Outcome, k: nat)
    requires SinceAnswer(history, k) && o != Answered
    ensures SinceAnswer(history + [o], k) && (history + [o])[k..] == history[k..] + [o]
  {
  }

  lemma {:induction false} OneMoreFailed(run: seq<Outcome>, o: Outcome)
    ensures Failed(run + [o]) == Failed(run) + if o.NothingOpened? || o.NothingAnswered? then 1 else 0
  {
    assert multiset(run + [o]) == multiset(run) + multiset{o};
  }

  lemma {:induction false} OneAnswerPoint(history: seq<Outcome>, j: nat, k: nat)
    requires SinceAnswer(history, j) && SinceAnswer(history, k)
    ensures j == k
  {
  }

  /** At some point so far the local client had refused every open for the limit of dials in a row. */
  predicate DeclaredDead(history: seq<Outcome>) {
    history != [] && (DeclaredDead(history[..|history| - 1]) || FoldAll(history).refusals >= REFUSAL_LIMIT)
  }

  lemma {:induction false} FoldSnoc(history: seq<Outcome>, o: Outcome)
    ensures FoldAll(history + [o]) == Updated(FoldAll(history), o)
    ensures DeclaredDead(history + [o]) <==> DeclaredDead(history) || FoldAll(history + [o]).refusals >= REFUSAL_LIMIT
  {
    assert (history + [o])[..|history + [o]| - 1] == history;
  }

  /** Declared dead means what it says: five dials one after another that opened nothing. */
  lemma {:induction false} DeclaredDeadMeans(history: seq<Outcome>)
    ensures DeclaredDead(history) <==>
            exists i: nat :: i + 5 <= |history| && FiveFrom(history, i)
  {
    if history != [] {
      var n := |history| - 1;
      DeclaredDeadMeans(history[..n]);
      RefusalsAreARun(history);
      if FoldAll(history).refusals >= REFUSAL_LIMIT {
        assert FiveFrom(history, |history| - 5);
      } else if DeclaredDead(history[..n]) {
        var i: nat :| i + 5 <= n && FiveFrom(history[..n], i);
        assert FiveFrom(history, i);
      }
      if exists i: nat :: i + 5 <= |history| && FiveFrom(history, i) {
        var i: nat :| i + 5 <= |history| && FiveFrom(history, i);
        if i + 5 <= n {
          assert FiveFrom(history[..n], i);
        } else {
          FiveAtEnd(history, FoldAll(history).refusals);
        }
      }
    }
  }

  lemma {:induction false} FiveAtEnd(history: seq<Outcome>, n: nat)
    requires |history| >= 5 && FiveFrom(history, |history| - 5)
    requires IsRefusalRun(history, n)
    ensures n >= 5
  {
  }

  predicate FiveFrom(history: seq<Outcome>, i: nat) {
    forall j :: i <= j < i + 5 ==> j < |history| && history[j] == NothingOpened
  }

  // ---------------------------------------------------------------- one fold at a time

  /** Where a history puts the counts and the three places they are published in. */
  ghost predicate Stands(history: seq<Outcome>, counts: Counts, gauge: nat, degraded: bool, dead: bool) {
    && counts == FoldAll(history)
    && gauge == counts.deadEnds
    && (degraded <==> counts.deadEnds >= 3)
    && (dead <==> DeclaredDead(history))
  }

  lemma {:induction false} OneMoreStands(history: seq<Outcome>, o: Outcome, counts: Counts,
      gauge: nat, degraded: bool, dead: bool)
    requires Stands(history, counts, gauge, degraded, dead)
    ensures var next := Updated(counts, o);
            Stands(history + [o], next, next.deadEnds, next.deadEnds >= DEAD_END_LIMIT,
                   dead || next.refusals >= REFUSAL_LIMIT)
  {
    FoldSnoc(history, o);
  }

  class Folder {
    var refusals: nat
    var deadEnds: nat
    var gauge: nat
    var degraded: bool
    var clientIsDead: bool
    ghost var history: seq<Outcome>

    ghost predicate Valid()
      reads this
    {
      Stands(history, Counts(refusals, deadEnds), gauge, degraded, clientIsDead)
    }

    constructor ()
      ensures Valid() && history == []
    {
      refusals, deadEnds, gauge, degraded, clientIsDead, history := 0, 0, 0, false, false, [];
    }

    /** Fold one dial's outcome into the counts. */
    method Count(outcome: Outcome)
      modifies this`refusals, this`deadEnds
      ensures Counts(refusals, deadEnds) == Updated(old(Counts(refusals, deadEnds)), outcome)
    {
      match outcome {
        case Answered =>
          refusals := 0;
          deadEnds := 0;
        case Unprobed =>
          refusals := 0;
        case NothingOpened =>
          refusals := refusals + 1;
          deadEnds := deadEnds + 1;
        case NothingAnswered =>
          refusals := 0;
          deadEnds := deadEnds + 1;
      }
    }

    /** Take one dial's outcome into both counts, and republish those it moved. */
    method Fold(outcome: Outcome)
      requires Valid()
      modifies this
      ensures Valid() && history == old(history) + [outcome]
    {
      OneMoreStands(history, outcome, Counts(refusals, deadEnds), gauge, degraded, clientIsDead);
      Count(outcome);
      gauge := deadEnds;
      var isDegraded := deadEnds >= DEAD_END_LIMIT;
      if isDegraded != degraded {
        degraded := isDegraded;
      }
      if refusals >= REFUSAL_LIMIT {
        clientIsDead := true;
      }
      history := history + [outcome];
    }
  }

  // ---------------------------------------------------------------- any number of folds at once

  /** Where one caller of `fold` is. */
  datatype At = Outside | Locked | Counted | Gauged | Flagged | Notified | Returned

  datatype Caller = Caller(outcome: Outcome, at: At)

  /** The shared places, the callers, and the outcomes in the order the lock was taken. */
  datatype Shared = Shared(
    holder: Option<nat>, counts: Counts, gauge: nat, degraded: bool, dead: bool,
    callers: seq<Caller>, history: seq<Outcome>)

  /** A dial resolves and calls `fold`, or a caller takes its next step. */
  datatype Move = Call(outcome: Outcome) | Advance(caller: nat)

  const IDLE := Shared(None, Counts(0, 0), 0, false, false, [], [])

  function MoveTo(s: Shared, t: nat, at: At): Shared
    requires t < |s.callers|
  {
    s.(callers := s.callers[t := s.callers[t].(at := at)])
  }

  /** A caller waiting for a lock that is held does nothing. */
  function Take(s: Shared, m: Move): Shared {
    match m
    case Call(outcome) => s.(callers := s.callers + [Caller(outcome, Outside)])
    case Advance(t) =>
      if t >= |s.callers| then s
      else
        var outcome := s.callers[t].outcome;
        match s.callers[t].at
        case Outside =>
          if s.holder.Some? then s else MoveTo(s, t, Locked).(holder := Some(t), history := s.history + [outcome])
        case Locked => MoveTo(s, t, Counted).(counts := Updated(s.counts, outcome))
        case Counted => MoveTo(s, t, Gauged).(gauge := s.counts.deadEnds)
        case Gauged => MoveTo(s, t, Flagged).(degraded := s.counts.deadEnds >= DEAD_END_LIMIT)
        case Flagged => MoveTo(s, t, Notified).(dead := s.dead || s.counts.refusals >= REFUSAL_LIMIT)
        case Notified => MoveTo(s, t, Returned).(holder := None)
        case Returned => s
  }

  function After(moves: seq<Move>): Shared {
    if moves == [] then IDLE else Take(After(moves[..|moves| - 1]), moves[|moves| - 1])
  }

  predicate Inside(c: Caller) { !c.at.Outside? && !c.at.Returned? }

  /** The history before the outcome being folded in. */
  function Before(s: Shared): seq<Outcome> {
    if s.history == [] then [] else s.history[..|s.history| - 1]
  }

  /** What the lock holder has brought up to date so far. */
  ghost predicate Published(s: Shared) {
    if s.holder.None? then
      s.counts == FoldAll(s.history) && Agree(s, s.history, s.history, s.history)
    else
      && s.holder.value < |s.callers| && s.history != []
      && s.callers[s.holder.value].outcome == s.history[|s.history| - 1]
      && match s.callers[s.holder.value].at
         case Outside => false
         case Locked => s.counts == FoldAll(Before(s)) && Agree(s, Before(s), Before(s), Before(s))
         case Counted => s.counts == FoldAll(s.history) && Agree(s, Before(s), Before(s), Before(s))
         case Gauged => s.counts == FoldAll(s.history) && Agree(s, s.history, Before(s), Before(s))
         case Flagged => s.counts == FoldAll(s.history) && Agree(s, s.history, s.history, Before(s))
         case Notified => s.counts == FoldAll(s.history) && Agree(s, s.history, s.history, s.history)
         case Returned => false
  }

  /** The gauge, the flag and the notification each stand where a history puts them. */
  ghost predicate Agree(s: Shared, gauge: seq<Outcome>, flag: seq<Outcome>, dead: seq<Outcome>) {
    && s.gauge == FoldAll(gauge).deadEnds
    && (s.degraded <==> FoldAll(flag).deadEnds >= 3)
    && (s.dead <==> DeclaredDead(dead))
  }

  /** Only the holder of the lock is inside. */
  predicate Exclusive(s: Shared) {
    forall t :: 0 <= t < |s.callers| && Inside(s.callers[t]) ==> s.holder == Some(t)
  }

  /** How many callers with this outcome have taken the lock. */
  function Entered(callers: seq<Caller>, o: Outcome): nat {
    if callers == [] then 0
    else Entered(callers[..|callers| - 1], o) + Share(callers[|callers| - 1], o)
  }

  function Share(c: Caller, o: Outcome): nat { if !c.at.Outside? && c.outcome == o then 1 else 0 }

  lemma {:induction false} EnteredUpdate(callers: seq<Caller>, t: nat, c: Caller, o: Outcome)
    requires t < |callers|
    ensures Entered(callers[t := c], o) + Share(callers[t], o) == Entered(callers, o) + Share(c, o)
  {
    var n := |callers| - 1;
    if t == n {
      assert callers[t := c][..n] == callers[..n];
    } else {
      assert callers[t := c][..n] == callers[..n][t := c];
      EnteredUpdate(callers[..n], t, c, o);
    }
  }

  lemma {:induction false} TakeKeepsExclusive(s: Shared, m: Move)
    requires Exclusive(s)
    ensures Exclusive(Take(s, m))
  {
  }

  lemma {:induction false} TakingTheLock(s: Shared, t: nat)
    requires Exclusive(s) && Published(s)
    requires t < |s.callers| && s.callers[t].at.Outside?
    ensures Published(Take(s, Advance(t)))
  {
    if s.holder.None? {
      assert (s.history + [s.callers[t].outcome])[..|s.history|] == s.history;
    }
  }

  lemma {:induction false} CountingAndGauging(s: Shared, t: nat)
    requires Published(s) && s.holder == Some(t) && (s.callers[t].at.Locked? || s.callers[t].at.Counted?)
    ensures Published(Take(s, Advance(t)))
  {
    var b, o := Before(s), s.history[|s.history| - 1];
    assert s.history == b + [o];
    FoldSnoc(b, o);
    assert Before(Take(s, Advance(t))) == b;
  }

  lemma {:induction false} FlaggingAndLeaving(s: Shared, t: nat)
    requires Published(s) && s.holder == Some(t)
    requires s.callers[t].at.Gauged? || s.callers[t].at.Flagged? || s.callers[t].at.Notified?
    ensures Published(Take(s, Advance(t)))
  {
    var b, o := Before(s), s.history[|s.history| - 1];
    assert s.history == b + [o];
    FoldSnoc(b, o);
    assert Before(Take(s, Advance(t))) == b;
  }

  lemma {:induction false} SteppingInside(s: Shared, t: nat)
    requires Published(s) && s.holder == Some(t)
    ensures Published(Take(s, Advance(t)))
  {
    if s.callers[t].at.Locked? || s.callers[t].at.Counted? {
      CountingAndGauging(s, t);
    } else {
      FlaggingAndLeaving(s, t);
    }
  }

  lemma {:induction false} TakeKeepsPublished(s: Shared, m: Move)
    requires Exclusive(s) && Published(s)
    ensures Published(Take(s, m))
  {
    if m.Advance? && m.caller < |s.callers| {
      if s.callers[m.caller].at.Outside? {
        TakingTheLock(s, m.caller);
      } else if Inside(s.callers[m.caller]) {
        SteppingInside(s, m.caller);
      }
    }
  }

  /** No caller's outcome is missing from the history, and none is there twice. */
  ghost predicate NoneLost(s: Shared) {
    forall o :: multiset(s.history)[o] == Entered(s.callers, o)
  }

  /** A step changes one caller, and the history only when that caller takes the lock. */
  lemma {:induction false} StepShape(s: Shared, t: nat)
    requires t < |s.callers|
    ensures var r := Take(s, Advance(t));
            && |r.callers| == |s.callers| && r.callers == s.callers[t := r.callers[t]]
            && r.callers[t].outcome == s.callers[t].outcome
            && (s.callers[t].at.Outside? && !r.callers[t].at.Outside?
                ==> r.history == s.history + [s.callers[t].outcome])
            && ((s.callers[t].at.Outside? <==> r.callers[t].at.Outside?) ==> r.history == s.history)
            && (!s.callers[t].at.Outside? ==> !r.callers[t].at.Outside?)
  {
  }

  lemma {:induction false} TakeKeepsEntered(s: Shared, m: Move)
    requires NoneLost(s)
    ensures NoneLost(Take(s, m))
  {
    var r := Take(s, m);
    if m.Call? {
      assert (s.callers + [Caller(m.outcome, Outside)])[..|s.callers|] == s.callers;
    } else if m.caller < |s.callers| {
      StepShape(s, m.caller);
      forall o ensures multiset(r.history)[o] == Entered(r.callers, o) {
        CountStep(s.callers, s.history, r.callers, r.history, m.caller, o);
      }
    }
  }

  lemma {:induction false} CountStep(callers: seq<Caller>, history: seq<Outcome>, callers': seq<Caller>,
        history': seq<Outcome>, t: nat, o: Outcome)
    requires t < |callers| == |callers'| && callers' == callers[t := callers'[t]]
    requires callers'[t].outcome == callers[t].outcome
    requires callers[t].at.Outside? && !callers'[t].at.Outside? ==> history' == history + [callers[t].outcome]
    requires (callers[t].at.Outside? <==> callers'[t].at.Outside?) ==> history' == history
    requires !callers[t].at.Outside? ==> !callers'[t].at.Outside?
    requires multiset(history)[o] == Entered(callers, o)
    ensures multiset(history')[o] == Entered(callers', o)
  {
    EnteredUpdate(callers, t, callers'[t], o);
  }

  lemma {:induction false} EveryInterleaving(moves: seq<Move>)
    ensures Exclusive(After(moves)) && Published(After(moves))
    ensures NoneLost(After(moves))
  {
    if moves != [] {
      var before, m := moves[..|moves| - 1], moves[|moves| - 1];
      EveryInterleaving(before);
      TakeKeepsExclusive(After(before), m);
      TakeKeepsPublished(After(before), m);
      TakeKeepsEntered(After(before), m);
    }
  }

  /**
   Whenever the lock is free, after any interleaving of any number of folds: the gauge and the flag
   report the same moment, the counts are the two runs over the outcomes in lock order, the client
   has been declared dead exactly if five dials in a row opened nothing, and no caller's outcome is
   missing or counted twice.
  */
  lemma {:induction false} FreeLockMeansAgreement(moves: seq<Move>)
    requires After(moves).holder.None?
    ensures var s := After(moves);
            && s.gauge == s.counts.deadEnds
            && (s.degraded <==> s.counts.deadEnds >= 3)
            && IsRefusalRun(s.history, s.counts.refusals)
            && IsDeadEndRun(s.history, s.counts.deadEnds)
            && (s.dead <==> exists i: nat :: i + 5 <= |s.history| && FiveFrom(s.history, i))
            && NoneLost(s)
  {
    var s := After(moves);
    EveryInterleaving(moves);
    CountsAreRuns(s.history, s.counts.refusals);
    CountsAreRuns(s.history, s.counts.deadEnds);
    DeclaredDeadMeans(s.history);
  }

  /** Three steps in: the lock, the counts, the gauge. */
  lemma {:induction false} HalfAFold(s: Shared, t: nat)
    requires s.holder.None? && t < |s.callers| && s.callers[t].at.Outside?
    ensures Take(Take(Take(s, Advance(t)), Advance(t)), Advance(t))
         == MoveTo(s, t, Gauged).(holder := Some(t), history := s.history + [s.callers[t].outcome],
                                  counts := Updated(s.counts, s.callers[t].outcome),
                                  gauge := Updated(s.counts, s.callers[t].outcome).deadEnds)
  {
    var locked := Take(s, Advance(t));
    var counted := Take(locked, Advance(t));
    assert counted.callers == s.callers[t := s.callers[t].(at := Counted)];
  }

  /** Three steps out: the flag, the notification, the lock. */
  lemma {:induction false} OtherHalf(s: Shared, t: nat)
    requires t < |s.callers| && s.callers[t].at.Gauged?
    ensures Take(Take(Take(s, Advance(t)), Advance(t)), Advance(t))
         == MoveTo(s, t, Returned).(holder := None, degraded := s.counts.deadEnds >= DEAD_END_LIMIT,
                                    dead := s.dead || s.counts.refusals >= REFUSAL_LIMIT)
  {
    var flagged := Take(s, Advance(t));
    var notified := Take(flagged, Advance(t));
    assert notified.callers == s.callers[t := s.callers[t].(at := Notified)];
  }

  /** Folds that do not overlap are the folds of the class. */
  lemma {:induction false} UndisturbedFold(s: Shared, t: nat)
    requires s.holder.None? && t < |s.callers| && s.callers[t].at.Outside?
    ensures var step := Advance(t);
            var r := Take(Take(Take(Take(Take(Take(s, step), step), step), step), step), step);
            var counts := Updated(s.counts, s.callers[t].outcome);
            && r.holder.None? && r.callers == s.callers[t := s.callers[t].(at := Returned)]
            && r.counts == counts && r.gauge == counts.deadEnds
            && (r.degraded <==> counts.deadEnds >= DEAD_END_LIMIT)
            && (r.dead <==> s.dead || counts.refusals >= REFUSAL_LIMIT)
            && r.history == s.history + [s.callers[t].outcome]
  {
    HalfAFold(s, t);
    OtherHalf(Take(Take(Take(s, Advance(t)), Advance(t)), Advance(t)), t);
  }

  lemma {:induction false} AfterSnoc(moves: seq<Move>, m: Move)
    ensures After(moves + [m]) == Take(After(moves), m)
  {
    assert (moves + [m])[..|moves|] == moves;
  }

  /** Every history can happen: any dials, one after another, are all folded, and leave the lock free. */
  lemma {:induction false} EveryHistoryHappens(history: seq<Outcome>) returns (moves: seq<Move>)
    ensures After(moves).history == history && After(moves).holder.None?
    ensures |After(moves).callers| == |history|
  {
    moves := [];
    if history != [] {
      var n := |history| - 1;
      var before := EveryHistoryHappens(history[..n]);
      var called, step := before + [Call(history[n])], Advance(n);
      AfterSnoc(before, Call(history[n]));
      AfterSnoc(called, step);
      AfterSnoc(called + [step], step);
      AfterSnoc(called + [step] + [step], step);
      AfterSnoc(called + [step] + [step] + [step], step);
      AfterSnoc(called + [step] + [step] + [step] + [step], step);
      moves := called + [step] + [step] + [step] + [step] + [step] + [step];
      AfterSnoc(called + [step] + [step] + [step] + [step] + [step], step);
      UndisturbedFold(After(called), n);
      assert history == history[..n] + [history[n]];
    }
  }
}
