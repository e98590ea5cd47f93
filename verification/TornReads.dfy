/**
 The watchdog again, with every load and store a step of its own.

 Each pump records a chunk by sampling the clock, storing the stamp and then adding to the count; a
 tick reads its own clock first and then the four atomics one at a time. Any interleaving of the two
 pumps, the ticker and the passage of time is a list of actions; an action that is not possible
 where it comes does nothing.
*/
module TornReads {
  import opened Wrappers
  import opened Splice

  /** Where one pump is inside `record`. */
  datatype Recorder = Resting | Sampled(at: nat, n: nat) | Stamped(at: nat, n: nat)

  /**
   One direction: the two atomics, where its pump is, and for the record the unwrapped total and the
   stamp of every chunk counted so far.
  */
  datatype Lane = Lane(bytes: u64, stamp: nat, recorder: Recorder, total: nat, counted: seq<nat>)

  /** Where the ticker is inside `tripped`; `outSeen` and `inSeen` are how many records its count loads covered. */
  datatype Checker =
    | Waiting
    | HasNow(now: nat)
    | OutCounted(now: nat, moved: bool, outSeen: nat)
    | OutRead(now: nat, wrote: Option<nat>, outSeen: nat)
    | InCounted(now: nat, wrote: Option<nat>, outSeen: nat, moved: bool, inSeen: nat)
    | Loaded(now: nat, wrote: Option<nat>, outSeen: nat, heard: Option<nat>, inSeen: nat)

  datatype State = State(clock: nat, out: Lane, inn: Lane, checker: Checker, since: Option<nat>, verdict: Option<Ended>)

  datatype RecordStep = Sample(n: nat) | Store | Count

  datatype Action = Pass(millis: nat) | OutPump(r: RecordStep) | InPump(r: RecordStep) | Check

  const QUIET := Lane(0, 0, Resting, 0, [])

  const START := State(0, QUIET, QUIET, Waiting, None, None)

  function Record(l: Lane, r: RecordStep, clock: nat): Lane {
    match (r, l.recorder)
    case (Sample(n), Resting) => if n > 0 then l.(recorder := Sampled(clock, n)) else l
    case (Store, Sampled(at, n)) => l.(stamp := at, recorder := Stamped(at, n))
    case (Count, Stamped(at, n)) =>
      l.(bytes := (l.bytes + n) % U64_LIMIT, total := l.total + n, counted := l.counted + [at], recorder := Resting)
    case _ => l
  }

  /** The clock and verdict a tick leaves from what it loaded. */
  function DecidedSince(s: State): Option<nat>
    requires s.checker.Loaded?
  {
    NextSince(s.since, s.checker.wrote, s.checker.heard)
  }

  function Decision(w: Deadlines, s: State): Option<Ended>
    requires s.checker.Loaded?
  {
    Verdict(w, DecidedSince(s), s.checker.now, s.checker.wrote, s.checker.heard)
  }

  function CheckStep(w: Deadlines, s: State): State {
    match s.checker
    case Waiting => if s.verdict.None? then s.(checker := HasNow(s.clock)) else s
    case HasNow(now) => s.(checker := OutCounted(now, s.out.bytes > 0, |s.out.counted|))
    case OutCounted(now, moved, seen) =>
      s.(checker := OutRead(now, if moved then Some(s.out.stamp) else None, seen))
    case OutRead(now, wrote, seen) => s.(checker := InCounted(now, wrote, seen, s.inn.bytes > 0, |s.inn.counted|))
    case InCounted(now, wrote, outSeen, moved, inSeen) =>
      s.(checker := Loaded(now, wrote, outSeen, if moved then Some(s.inn.stamp) else None, inSeen))
    case Loaded(_, _, _, _, _) =>
      s.(since := DecidedSince(s), verdict := Decision(w, s), checker := Waiting)
  }

  function Do(w: Deadlines, s: State, a: Action): State {
    match a
    case Pass(millis) => s.(clock := s.clock + millis)
    case OutPump(r) => s.(out := Record(s.out, r, s.clock))
    case InPump(r) => s.(inn := Record(s.inn, r, s.clock))
    case Check => CheckStep(w, s)
  }

  function After(w: Deadlines, s: State, actions: seq<Action>): State
    decreases |actions|
  {
    if actions == [] then s else After(w, Do(w, s, actions[0]), actions[1..])
  }

  // ---------------------------------------------------------------- what every interleaving keeps

  predicate Unwrapped(l: Lane) { l.total < U64_LIMIT }

  /** Stamps only grow, and a count is never ahead of the stamp behind it. */
  ghost predicate LaneOk(l: Lane, clock: nat) {
    && l.bytes == l.total % U64_LIMIT
    && (l.total == 0 <==> l.counted == [])
    && (forall i :: 0 <= i < |l.counted| ==> l.counted[i] <= l.stamp)
    && l.stamp <= clock
    && (l.recorder.Sampled? ==> l.stamp <= l.recorder.at <= clock && l.recorder.n > 0)
    && (l.recorder.Stamped? ==> l.stamp == l.recorder.at && l.recorder.n > 0)
  }

  /** The first `seen` records were counted, and `read` is at least as late as each of them. */
  ghost predicate Covers(l: Lane, seen: nat, read: Option<nat>) {
    && seen <= |l.counted|
    && (seen > 0 ==> read.Some? && forall i :: 0 <= i < seen ==> l.counted[i] <= read.value)
  }

  ghost predicate CheckerOk(s: State) {
    match s.checker
    case Waiting => true
    case HasNow(_) => true
    case OutCounted(_, moved, seen) => seen <= |s.out.counted| && (moved <==> seen > 0)
    case OutRead(_, wrote, seen) => Covers(s.out, seen, wrote)
    case InCounted(_, wrote, outSeen, moved, inSeen) =>
      Covers(s.out, outSeen, wrote) && inSeen <= |s.inn.counted| && (moved <==> inSeen > 0)
    case Loaded(_, wrote, outSeen, heard, inSeen) => Covers(s.out, outSeen, wrote) && Covers(s.inn, inSeen, heard)
  }

  ghost predicate Invariant(s: State) {
    LaneOk(s.out, s.clock) && LaneOk(s.inn, s.clock) && CheckerOk(s)
  }

  lemma {:induction false} RecordKeepsLane(l: Lane, r: RecordStep, clock: nat)
    requires LaneOk(l, clock) && Unwrapped(Record(l, r, clock))
    ensures LaneOk(Record(l, r, clock), clock) && Unwrapped(l)
    ensures l.counted <= Record(l, r, clock).counted
    ensures forall seen, read :: Covers(l, seen, read) ==> Covers(Record(l, r, clock), seen, read)
  {
    var m := Record(l, r, clock);
    forall i | 0 <= i < |m.counted| ensures m.counted[i] <= m.stamp {
      assert i < |l.counted| ==> m.counted[i] == l.counted[i];
    }
  }

  lemma {:induction false} StepKeepsInvariant(w: Deadlines, s: State, a: Action)
    requires Invariant(s)
    requires Unwrapped(Do(w, s, a).out) && Unwrapped(Do(w, s, a).inn)
    ensures Invariant(Do(w, s, a))
  {
    match a
    case Pass(_) =>
    case OutPump(r) => RecordKeepsLane(s.out, r, s.clock);
    case InPump(r) => RecordKeepsLane(s.inn, r, s.clock);
    case Check =>
  }

  lemma {:induction false} EveryInterleavingKeepsInvariant(w: Deadlines, s: State, actions: seq<Action>)
    requires Invariant(s)
    requires Unwrapped(After(w, s, actions).out) && Unwrapped(After(w, s, actions).inn)
    ensures Invariant(After(w, s, actions))
    decreases |actions|
  {
    if actions != [] {
      TotalsOnlyGrow(w, Do(w, s, actions[0]), actions[1..]);
      StepKeepsInvariant(w, s, actions[0]);
      EveryInterleavingKeepsInvariant(w, Do(w, s, actions[0]), actions[1..]);
    }
  }

  lemma {:induction false} TotalsOnlyGrow(w: Deadlines, s: State, actions: seq<Action>)
    ensures s.out.total <= After(w, s, actions).out.total
    ensures s.inn.total <= After(w, s, actions).inn.total
    decreases |actions|
  {
    if actions != [] {
      TotalsOnlyGrow(w, Do(w, s, actions[0]), actions[1..]);
    }
  }

  // ---------------------------------------------------------------- untorn, it is the same watchdog

  function AsActivity(s: State): Activity {
    Activity(s.out.bytes, s.out.stamp, s.inn.bytes, s.inn.stamp, s.since)
  }

  /** A record nothing interrupts is one `Out` or `In` event stamped with the clock. */
  lemma {:induction false} UntornRecord(w: Deadlines, s: State, n: nat)
    requires n > 0
    ensures s.out.recorder.Resting? ==>
              var t := Do(w, Do(w, Do(w, s, OutPump(Sample(n))), OutPump(Store)), OutPump(Count));
              AsActivity(t) == Step(AsActivity(s), Out(n, s.clock)) && t.out.recorder.Resting?
    ensures s.inn.recorder.Resting? ==>
              var t := Do(w, Do(w, Do(w, s, InPump(Sample(n))), InPump(Store)), InPump(Count));
              AsActivity(t) == Step(AsActivity(s), In(n, s.clock)) && t.inn.recorder.Resting?
  {
  }

  /** Six uninterrupted steps of the ticker are one tick, with the same clock and the same verdict. */
  lemma {:induction false} UntornTick(w: Deadlines, s: State)
    requires s.checker.Waiting? && s.verdict.None?
    ensures var loaded := CheckStep(w, CheckStep(w, CheckStep(w, CheckStep(w, CheckStep(w, s)))));
            var t := CheckStep(w, loaded);
            && AsActivity(t) == Step(AsActivity(s), Tick(s.clock))
            && t.verdict == Verdict(w, t.since, s.clock, AsActivity(s).Wrote(), AsActivity(s).Heard())
  {
    var read := CheckStep(w, CheckStep(w, CheckStep(w, s)));
    assert read.checker == OutRead(s.clock, AsActivity(s).Wrote(), |s.out.counted|);
    var loaded := CheckStep(w, CheckStep(w, read));
    assert loaded.checker.heard == AsActivity(s).Heard();
  }

  // ---------------------------------------------------------------- verdicts survive torn reads

  /** The first `seen` records of this direction are all at least `deadline` old at `now`. */
  ghost predicate AllOld(l: Lane, seen: nat, deadline: Duration, now: nat)
    requires seen <= |l.counted|
  {
    forall i :: 0 <= i < seen ==> l.counted[i] + AsMillis(deadline) <= now
  }

  /**
   What a verdict is meant to say once the tick has loaded: stalled, that every answer counted before it
   read the inbound count is a full deadline old by its own clock; idle, the same of both directions.
  */
  ghost predicate Justified(w: Deadlines, s: State)
    requires s.checker.Loaded? && CheckerOk(s)
  {
    match Decision(w, s)
    case Some(Stalled(after)) => AllOld(s.inn, s.checker.inSeen, after, s.checker.now)
    case Some(Idle(after)) =>
      AllOld(s.inn, s.checker.inSeen, after, s.checker.now) && AllOld(s.out, s.checker.outSeen, after, s.checker.now)
    case _ => true
  }

  /** However this run's loads and stores interleave, the verdict it comes to is justified. */
  ghost predicate Survives(w: Deadlines, actions: seq<Action>) {
    var s := After(w, START, actions);
    Unwrapped(s.out) && Unwrapped(s.inn) && s.checker.Loaded? ==> CheckerOk(s) && Justified(w, s)
  }

  /** Every deadline that is set is at least a millisecond. */
  predicate Whole(w: Deadlines) {
    (w.stall.Some? ==> AsMillis(w.stall.value) > 0) && (w.idle.Some? ==> AsMillis(w.idle.value) > 0)
  }

  lemma {:induction false} WholeDeadlinesSurvive(w: Deadlines, actions: seq<Action>)
    requires Whole(w)
    ensures Survives(w, actions)
  {
    var s := After(w, START, actions);
    if Unwrapped(s.out) && Unwrapped(s.inn) {
      EveryInterleavingKeepsInvariant(w, START, actions);
    }
  }

  /** A deadline below a millisecond cuts off an answer younger than the tick's own clock. */
  lemma {:induction false} AnswerCutOff(w: Deadlines) returns (actions: seq<Action>)
    requires !Whole(w)
    ensures !Survives(w, actions)
  {
    var loads := [Check, Check, Check, Check];
    var write := [Pass(1), OutPump(Sample(1)), OutPump(Store), OutPump(Count)];
    var answer := [Check, Pass(5), InPump(Sample(1)), InPump(Store), InPump(Count)];
    actions := answer + (write + loads);
    var heard := Lane(1, 5, Resting, 1, [5]);
    var wrote := Lane(1, 6, Resting, 1, [6]);
    var s1 := State(5, QUIET, heard, HasNow(0), None, None);
    var s2 := State(6, wrote, heard, HasNow(0), None, None);
    AnswerThenWrite(w, answer, write);
    Join(w, START, answer, write + loads);
    Join(w, s1, write, loads);
    FourLoads(w, s2, loads);
    YoungAnswer(w, After(w, START, actions));
  }

  lemma {:induction false} YoungAnswer(w: Deadlines, s: State)
    requires !Whole(w)
    requires s.checker == Loaded(0, Some(6), 1, Some(5), 1) && s.since.None?
    requires s.inn.counted == [5] && s.out.counted == [6]
    ensures CheckerOk(s) && !Justified(w, s)
  {
    assert s.inn.counted[0] == 5;
    assert DecidedSince(s) == Some(6);
  }

  /** Verdicts survive torn reads, under every interleaving, exactly for deadlines of at least a millisecond. */
  lemma {:induction false} VerdictsSurviveTornReadsIff(w: Deadlines)
    ensures (forall actions :: Survives(w, actions)) <==> Whole(w)
  {
    if Whole(w) {
      forall actions ensures Survives(w, actions) {
        WholeDeadlinesSurvive(w, actions);
      }
    } else {
      var actions := AnswerCutOff(w);
    }
  }

  lemma {:induction false} AnswerThenWrite(w: Deadlines, answer: seq<Action>, write: seq<Action>)
    requires answer == [Check, Pass(5), InPump(Sample(1)), InPump(Store), InPump(Count)]
    requires write == [Pass(1), OutPump(Sample(1)), OutPump(Store), OutPump(Count)]
    ensures After(w, START, answer) == State(5, QUIET, Lane(1, 5, Resting, 1, [5]), HasNow(0), None, None)
    ensures After(w, State(5, QUIET, Lane(1, 5, Resting, 1, [5]), HasNow(0), None, None), write)
         == State(6, Lane(1, 6, Resting, 1, [6]), Lane(1, 5, Resting, 1, [5]), HasNow(0), None, None)
  {
    var s1 := State(5, QUIET, QUIET, HasNow(0), None, None);
    assert After(w, START, answer) == After(w, s1, answer[2..]);
    assert After(w, s1, answer[2..]) == After(w, s1.(inn := Lane(0, 5, Stamped(5, 1), 0, [])), answer[4..]);
    var s2 := State(5, QUIET, Lane(1, 5, Resting, 1, [5]), HasNow(0), None, None);
    assert After(w, s1.(inn := Lane(0, 5, Stamped(5, 1), 0, [])), answer[4..]) == After(w, s2, answer[5..]);
    assert [] + [5] == [5] && [] + [6] == [6];
    assert After(w, s2, write) == After(w, s2.(clock := 6, out := Lane(0, 0, Sampled(6, 1), 0, [])), write[2..]);
    assert After(w, s2.(clock := 6, out := Lane(0, 0, Sampled(6, 1), 0, [])), write[2..])
        == After(w, s2.(clock := 6, out := Lane(1, 6, Resting, 1, [6])), write[4..]);
    assert write[4..] == [] && answer[5..] == [];
  }

  lemma {:induction false} FourLoads(w: Deadlines, s: State, loads: seq<Action>)
    requires s == State(6, Lane(1, 6, Resting, 1, [6]), Lane(1, 5, Resting, 1, [5]), HasNow(0), None, None)
    requires loads == [Check, Check, Check, Check]
    ensures After(w, s, loads) == s.(checker := Loaded(0, Some(6), 1, Some(5), 1))
  {
    assert After(w, s, loads) == After(w, s.(checker := OutRead(0, Some(6), 1)), loads[2..]);
    assert After(w, s.(checker := OutRead(0, Some(6), 1)), loads[2..])
        == After(w, s.(checker := Loaded(0, Some(6), 1, Some(5), 1)), loads[4..]);
    assert loads[4..] == [];
  }

  lemma {:induction false} Join(w: Deadlines, s: State, a: seq<Action>, b: seq<Action>)
    ensures After(w, s, a + b) == After(w, After(w, s, a), b)
    decreases |a|
  {
    if a == [] {
      assert a + b == b;
    } else {
      assert (a + b)[1..] == a[1..] + b;
      Join(w, Do(w, s, a[0]), a[1..], b);
    }
  }
}
