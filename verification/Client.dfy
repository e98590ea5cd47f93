/**
 The dialling half: what carrying one wallet connection does and counts, and the accept loop over
 any number of connections at once.
*/
module Client {
  import opened Dial
  import opened Metrics
  import Splice
  import Streaks

  // ---------------------------------------------------------------- carrying one connection

  /** What the streaks are told about a dial. */
  function OutcomeOf(s: Settings, r: DialResult): Streaks.Outcome {
    match r
    case Dialled(_, _) => if s.probe.Some? then Streaks.Answered else Streaks.Unprobed
    case GaveUp(rounds) => if NothingOpened(rounds) then Streaks.NothingOpened else Streaks.NothingAnswered
  }

  /** What a dial can come to: see `DialSpendsBudget`. */
  predicate CanBe(s: Settings, r: DialResult) {
    Ladder(r.rounds, Attempts(s), Concurrency(s)) && (r.GaveUp? <==> NoAnswer(r.rounds))
  }

  /** Whatever the transport does, exactly one outcome is told, and it is the right one. */
  lemma {:induction false} OutcomeIsRight(s: Settings, r: DialResult)
    requires CanBe(s, r)
    ensures OutcomeOf(s, r) == Streaks.Answered <==> s.probe.Some? && !NoAnswer(r.rounds)
    ensures OutcomeOf(s, r) == Streaks.Unprobed <==> s.probe.None? && !NoAnswer(r.rounds)
    ensures OutcomeOf(s, r) == Streaks.NothingOpened <==> NoAnswer(r.rounds) && OnlyRefusals(r.rounds)
    ensures OutcomeOf(s, r) == Streaks.NothingAnswered <==> NoAnswer(r.rounds) && !OnlyRefusals(r.rounds)
  {
    if r.GaveUp? {
      GiveUpClassifiedExactly(r.rounds, Attempts(s), Concurrency(s));
    }
  }

  /** Everything one connection counts, from being accepted to being over. */
  function Carried(t: Totals, r: DialResult, ended: Splice.Ended): Totals {
    var dialled := WithResult(Accepting(t), r);
    WithoutGuard(if r.Dialled? then WithEnding(dialled, ended) else dialled)
  }

  /** A dial that has resolved is counted, and folded once. */
  method Report(settings: Settings, r: DialResult, metrics: ClientMetrics, streaks: Streaks.Folder)
    requires streaks.Valid()
    modifies metrics, streaks
    ensures metrics.Read() == WithResult(old(metrics.Read()), r)
    ensures streaks.Valid() && streaks.history == old(streaks.history) + [OutcomeOf(settings, r)]
  {
    match r {
      case Dialled(answer, rounds) =>
        metrics.Established(rounds, answer);
        streaks.Fold(if settings.probe.Some? then Streaks.Answered else Streaks.Unprobed);
      case GaveUp(rounds) =>
        metrics.GaveUp(rounds);
        streaks.Fold(if NothingOpened(rounds) then Streaks.NothingOpened else Streaks.NothingAnswered);
    }
  }

  /**
   Carry one wallet connection: dial, report the dial as soon as it resolves, and splice if it came to a
   stream. The in-flight guard is let go of on every way out.
  */
  method Carry(settings: Settings, scripts: seq<Script>, watchdog: Splice.Deadlines, traffic: seq<Splice.Event>,
               last: Splice.Ended, metrics: ClientMetrics, streaks: Streaks.Folder)
    returns (r: DialResult, ended: Splice.Ended)
    requires Obeys(scripts, settings) && streaks.Valid()
    requires last.Closed? || last.Failed?
    modifies metrics, streaks
    ensures r == DialedOn(settings, scripts) && CanBe(settings, r)
    ensures r.Dialled? ==> Splice.EndsAs(watchdog, traffic, last, ended)
    ensures metrics.Read() == Carried(old(metrics.Read()), r, ended)
    ensures streaks.Valid() && streaks.history == old(streaks.history) + [OutcomeOf(settings, r)]
  {
    DialSpendsBudget(settings, scripts);
    ended := last;
    metrics.ConnectionAccepted();
    r := DialOut(settings, scripts);
    Report(settings, r, metrics, streaks);
    if r.Dialled? {
      var transfer, seen;
      transfer, ended, seen := Splice.Run(watchdog, traffic, last);
      metrics.Finished(ended);
    }
    metrics.DropGuard();
  }

  /** A connection that is over leaves the gauge where it found it. */
  lemma {:induction false} CarryingLeavesTheGauge(t: Totals, r: DialResult, ended: Splice.Ended)
    ensures Carried(t, r, ended).inFlight == t.inFlight
  {
    var start := Accepting(t);
    DialLeavesTheRest(start.(rounds := start.rounds + |r.rounds|), r.rounds);
  }

  // ---------------------------------------------------------------- any number of connections at once

  /** Where one connection's task is. Its dial is counted on leaving `Dialling`, and folded on leaving `Folding`. */
  datatype Phase = Dialling | Folding(outcome: Streaks.Outcome) | Carrying | Leaving | Gone

  /**
   `resolved` is what every dial so far came to, `cancelled` the streams let go of because another answered,
   and `endings` how every carried connection so far ended.
  */
  datatype ClientState = ClientState(
    conns: seq<Phase>, totals: Totals, history: seq<Streaks.Outcome>,
    resolved: seq<DialResult>, cancelled: nat, endings: seq<Splice.Ended>,
    cutDials: nat, cutSplices: nat, bailed: bool)

  /** Listening, with nothing accepted yet. */
  predicate Open(f: ClientState) {
    && f.conns == [] && Unused(f.totals) && f.history == [] && f.resolved == []
    && f.cancelled == 0 && f.endings == [] && f.cutDials == 0 && f.cutSplices == 0 && !f.bailed
  }

  datatype Event =
    | Accepts
    | Resolves(i: nat, result: DialResult)
    | Folds(i: nat)
    | Ends(i: nat, ended: Splice.Ended)
    | DropsGuard(i: nat)
    | CutDial(i: nat)
    | CutSplice(i: nat)
    | Bails

  predicate In(f: ClientState, i: nat, phase: Phase) { i < |f.conns| && f.conns[i] == phase }

  function Resolve(f: ClientState, s: Settings, i: nat, r: DialResult): ClientState
    requires In(f, i, Dialling)
  {
    f.(conns := f.conns[i := Folding(OutcomeOf(s, r))],
       totals := WithResult(f.totals, r),
       resolved := f.resolved + [r],
       cancelled := f.cancelled + TotalCancelled(r.rounds))
  }

  function Fold(f: ClientState, i: nat): ClientState
    requires i < |f.conns| && f.conns[i].Folding?
  {
    var o := f.conns[i].outcome;
    f.(conns := f.conns[i := if o.Answered? || o.Unprobed? then Carrying else Leaving], history := f.history + [o])
  }

  function End(f: ClientState, i: nat, ended: Splice.Ended): ClientState
    requires In(f, i, Carrying)
  {
    f.(conns := f.conns[i := Leaving], totals := WithEnding(f.totals, ended), endings := f.endings + [ended])
  }

  /** An event that cannot happen where it comes does nothing. */
  function Happens(f: ClientState, s: Settings, e: Event): ClientState {
    match e
    case Accepts => if f.bailed then f else f.(conns := f.conns + [Dialling], totals := Accepting(f.totals))
    case Resolves(i, r) => if In(f, i, Dialling) && CanBe(s, r) then Resolve(f, s, i, r) else f
    case Folds(i) => if i < |f.conns| && f.conns[i].Folding? then Fold(f, i) else f
    case Ends(i, ended) => if In(f, i, Carrying) then End(f, i, ended) else f
    case DropsGuard(i) =>
      if In(f, i, Leaving) then f.(conns := f.conns[i := Gone], totals := WithoutGuard(f.totals)) else f
    case CutDial(i) => if In(f, i, Dialling) then f.(conns := f.conns[i := Leaving], cutDials := f.cutDials + 1) else f
    case CutSplice(i) =>
      if In(f, i, Carrying) then f.(conns := f.conns[i := Leaving], cutSplices := f.cutSplices + 1) else f
    case Bails => if Streaks.DeclaredDead(f.history) then f.(bailed := true) else f
  }

  function After(start: ClientState, s: Settings, events: seq<Event>): ClientState {
    if events == [] then start else Happens(After(start, s, events[..|events| - 1]), s, events[|events| - 1])
  }

  // ---------------------------------------------------------------- the counters stay coherent

  function At(conns: seq<Phase>, phase: Phase): nat { multiset(conns)[phase] }

  /** How many connections are in each phase; `kept` and `lost` are about to be folded as a success or a failure. */
  datatype Census = Census(dialling: int, kept: int, lost: int, carrying: int, leaving: int, gone: int)

  function CensusOf(conns: seq<Phase>): Census {
    Census(At(conns, Dialling),
           At(conns, Folding(Streaks.Answered)) + At(conns, Folding(Streaks.Unprobed)),
           At(conns, Folding(Streaks.NothingOpened)) + At(conns, Folding(Streaks.NothingAnswered)),
           At(conns, Carrying), At(conns, Leaving), At(conns, Gone))
  }

  function Times(history: seq<Streaks.Outcome>, o: Streaks.Outcome): nat { multiset(history)[o] }

  ghost predicate Coherent(f: ClientState, c: Census) {
    && |f.conns| == c.dialling + c.kept + c.lost + c.carrying + c.leaving + c.gone
    && f.totals.connections == |f.conns| == c.dialling + f.cutDials + f.totals.established + f.totals.unestablished
    && f.totals.unestablished <= f.totals.firstRoundFailures <= f.totals.established + f.totals.unestablished
    && Unfailed(f.totals) == f.totals.established + f.cancelled
    && f.totals.established == c.kept + c.carrying + f.totals.ended.Total() + f.cutSplices
    && f.totals.inFlight == |f.conns| - c.gone
    && Times(f.history, Streaks.Answered) + Times(f.history, Streaks.Unprobed) + c.kept == f.totals.established
    && Times(f.history, Streaks.NothingOpened) + Times(f.history, Streaks.NothingAnswered) + c.lost
       == f.totals.unestablished
  }

  ghost predicate Sound(f: ClientState) { Coherent(f, CensusOf(f.conns)) }

  function Kind(p: Phase): Phase {
    match p
    case Folding(o) => Folding(if o.Answered? || o.Unprobed? then Streaks.Answered else Streaks.NothingAnswered)
    case _ => p
  }

  function Shift(p: Phase, from: Phase, to: Phase): int {
    (if p == Kind(to) then 1 else 0) - if p == Kind(from) then 1 else 0
  }

  function Shifted(c: Census, from: Phase, to: Phase): Census {
    Census(c.dialling + Shift(Dialling, from, to), c.kept + Shift(Folding(Streaks.Answered), from, to),
           c.lost + Shift(Folding(Streaks.NothingAnswered), from, to), c.carrying + Shift(Carrying, from, to),
           c.leaving + Shift(Leaving, from, to), c.gone + Shift(Gone, from, to))
  }

  lemma {:induction false} MoveCounts(conns: seq<Phase>, i: nat, to: Phase, p: Phase)
    requires i < |conns|
    ensures At(conns[i := to], p) == At(conns, p) - (if p == conns[i] then 1 else 0) + (if p == to then 1 else 0)
  {
    assert conns[i] in multiset(conns);
  }

  lemma {:induction false} MoveShifts(conns: seq<Phase>, i: nat, to: Phase)
    requires i < |conns|
    ensures CensusOf(conns[i := to]) == Shifted(CensusOf(conns), conns[i], to)
  {
    MoveCounts(conns, i, to, Dialling);
    MoveCounts(conns, i, to, Folding(Streaks.Answered));
    MoveCounts(conns, i, to, Folding(Streaks.Unprobed));
    MoveCounts(conns, i, to, Folding(Streaks.NothingOpened));
    MoveCounts(conns, i, to, Folding(Streaks.NothingAnswered));
    MoveCounts(conns, i, to, Carrying);
    MoveCounts(conns, i, to, Leaving);
    MoveCounts(conns, i, to, Gone);
  }

  /** What one resolved dial adds. */
  lemma {:induction false} ResultAddsUp(t: Totals, s: Settings, r: DialResult)
    requires CanBe(s, r)
    ensures var u := WithResult(t, r);
            && Unfailed(u) == Unfailed(t) + TotalCancelled(r.rounds) + (u.established - t.established)
            && (r.Dialled? ==> u.established == t.established + 1 && u.unestablished == t.unestablished)
            && (r.GaveUp? ==> u.established == t.established && u.unestablished == t.unestablished + 1)
            && t.firstRoundFailures <= u.firstRoundFailures <= t.firstRoundFailures + 1
            && (r.GaveUp? ==> u.firstRoundFailures == t.firstRoundFailures + 1)
            && u.connections == t.connections && u.inFlight == t.inFlight && u.ended == t.ended
  {
    DialAddsUp(t, r.rounds, Attempts(s), Concurrency(s));
    DialLeavesTheRest(t.(rounds := t.rounds + |r.rounds|), r.rounds);
  }

  lemma {:induction false} ResolvingCoheres(f: ClientState, c: Census, s: Settings, i: nat, r: DialResult)
    requires Coherent(f, c) && In(f, i, Dialling) && CanBe(s, r)
    ensures Coherent(Resolve(f, s, i, r), Shifted(c, Dialling, Folding(OutcomeOf(s, r))))
  {
    ResultAddsUp(f.totals, s, r);
  }

  lemma {:induction false} FoldingCoheres(f: ClientState, c: Census, i: nat)
    requires Coherent(f, c) && i < |f.conns| && f.conns[i].Folding?
    ensures Coherent(Fold(f, i), Shifted(c, f.conns[i], Fold(f, i).conns[i]))
  {
    assert multiset(f.history + [f.conns[i].outcome]) == multiset(f.history) + multiset{f.conns[i].outcome};
  }

  lemma {:induction false} EndingCoheres(f: ClientState, c: Census, i: nat, ended: Splice.Ended)
    requires Coherent(f, c) && In(f, i, Carrying)
    ensures Coherent(End(f, i, ended), Shifted(c, Carrying, Leaving))
  {
  }

  lemma {:induction false} LettingGoCoheres(f: ClientState, c: Census, s: Settings, e: Event)
    requires Coherent(f, c) && (e.DropsGuard? || e.CutDial? || e.CutSplice?) && Happens(f, s, e) != f
    ensures e.i < |f.conns| == |Happens(f, s, e).conns|
    ensures Coherent(Happens(f, s, e), Shifted(c, f.conns[e.i], Happens(f, s, e).conns[e.i]))
  {
  }

  lemma {:induction false} AcceptingIsSound(f: ClientState)
    requires Sound(f)
    ensures Sound(f.(conns := f.conns + [Dialling], totals := Accepting(f.totals)))
  {
    assert multiset(f.conns + [Dialling]) == multiset(f.conns) + multiset{Dialling};
  }

  /** The counters cohere at `g` once connection `i` is recounted where it has got to. */
  ghost predicate Recounted(f: ClientState, g: ClientState, i: nat) {
    && i < |f.conns| && i < |g.conns|
    && Coherent(g, Shifted(CensusOf(f.conns), f.conns[i], g.conns[i]))
  }

  lemma {:induction false} MovingCoheres(f: ClientState, s: Settings, e: Event)
    requires Sound(f) && !e.Accepts? && !e.Bails? && Happens(f, s, e) != f
    ensures Recounted(f, Happens(f, s, e), e.i)
  {
    var c := CensusOf(f.conns);
    match e
    case Resolves(i, r) => ResolvingCoheres(f, c, s, i, r);
    case Folds(i) => FoldingCoheres(f, c, i);
    case Ends(i, ended) => EndingCoheres(f, c, i, ended);
    case _ => LettingGoCoheres(f, c, s, e);
  }

  lemma {:induction false} OneConnectionMoves(f: ClientState, s: Settings, e: Event)
    requires !e.Accepts? && !e.Bails? && Happens(f, s, e) != f
    ensures e.i < |f.conns| == |Happens(f, s, e).conns|
    ensures Happens(f, s, e).conns == f.conns[e.i := Happens(f, s, e).conns[e.i]]
  {
  }

  lemma {:induction false} HappensKeepsSound(f: ClientState, s: Settings, e: Event)
    requires Sound(f)
    ensures Sound(Happens(f, s, e))
  {
    var g := Happens(f, s, e);
    if e.Accepts? {
      AcceptingIsSound(f);
    } else if !e.Bails? && g != f {
      OneConnectionMoves(f, s, e);
      MovingCoheres(f, s, e);
      MoveShifts(f.conns, e.i, g.conns[e.i]);
    }
  }

  /** The counters cohere before anything has been accepted. */
  lemma {:induction false} OpenIsSound(start: ClientState)
    requires Open(start)
    ensures Sound(start) && CountedRight(start) && forall s :: FoldedRight(start, s)
  {
  }

  /**
   In every state any number of connections can reach from there, in any order: every connection accepted is still
   dialling, was established or was not; what the wallet sees fail is among the failed first rounds,
   and they among the dials; every stream opened was kept, failed its probe or was let go of; the
   gauge is the connections not yet over; and each resolved dial has been folded once, as what it was.
  */
  lemma {:induction false} EveryRunIsSound(start: ClientState, s: Settings, events: seq<Event>)
    requires Sound(start)
    ensures Sound(After(start, s, events))
  {
    if events != [] {
      EveryRunIsSound(start, s, events[..|events| - 1]);
      HappensKeepsSound(After(start, s, events[..|events| - 1]), s, events[|events| - 1]);
    }
  }

  // ---------------------------------------------------------------- every dial is folded as what it was

  /** How many of these dials came to this outcome. */
  function CameTo(results: seq<DialResult>, s: Settings, o: Streaks.Outcome): nat {
    if results == [] then 0
    else CameTo(results[..|results| - 1], s, o) + if OutcomeOf(s, results[|results| - 1]) == o then 1 else 0
  }

  /** For every outcome, the folds made and those about to be are the dials that came to it. */
  ghost predicate FoldedRight(f: ClientState, s: Settings) {
    && (forall i :: 0 <= i < |f.resolved| ==> CanBe(s, f.resolved[i]))
    && forall o :: Times(f.history, o) + At(f.conns, Folding(o)) == CameTo(f.resolved, s, o)
  }

  lemma {:induction false} ResolvingFoldsRight(f: ClientState, s: Settings, i: nat, r: DialResult)
    requires FoldedRight(f, s) && In(f, i, Dialling) && CanBe(s, r)
    ensures FoldedRight(Resolve(f, s, i, r), s)
  {
    assert (f.resolved + [r])[..|f.resolved|] == f.resolved;
    forall o ensures At(f.conns[i := Folding(OutcomeOf(s, r))], Folding(o))
                     == At(f.conns, Folding(o)) + if OutcomeOf(s, r) == o then 1 else 0
    {
      MoveCounts(f.conns, i, Folding(OutcomeOf(s, r)), Folding(o));
    }
  }

  lemma {:induction false} FoldingLeaves(f: ClientState, i: nat, o: Streaks.Outcome)
    requires i < |f.conns| && f.conns[i].Folding?
    ensures At(Fold(f, i).conns, Folding(o)) == At(f.conns, Folding(o)) - if f.conns[i].outcome == o then 1 else 0
  {
    MoveCounts(f.conns, i, Fold(f, i).conns[i], Folding(o));
  }

  lemma {:induction false} FoldingFoldsRight(f: ClientState, s: Settings, i: nat)
    requires FoldedRight(f, s) && i < |f.conns| && f.conns[i].Folding?
    ensures FoldedRight(Fold(f, i), s)
  {
    var folded := f.conns[i].outcome;
    assert multiset(f.history + [folded]) == multiset(f.history) + multiset{folded};
    forall o ensures At(Fold(f, i).conns, Folding(o)) == At(f.conns, Folding(o)) - if folded == o then 1 else 0 {
      FoldingLeaves(f, i, o);
    }
  }

  /** Nothing else touches a connection that is being folded, or the folds. */
  lemma {:induction false} TheRestFoldsRight(f: ClientState, s: Settings, e: Event)
    requires FoldedRight(f, s) && !e.Resolves? && !e.Folds?
    ensures FoldedRight(Happens(f, s, e), s)
  {
    var g := Happens(f, s, e);
    assert g.history == f.history && g.resolved == f.resolved;
    forall o ensures At(g.conns, Folding(o)) == At(f.conns, Folding(o)) {
      TheRestLeavesFolding(f, s, e, o);
    }
  }

  lemma {:induction false} TheRestLeavesFolding(f: ClientState, s: Settings, e: Event, o: Streaks.Outcome)
    requires !e.Resolves? && !e.Folds?
    ensures At(Happens(f, s, e).conns, Folding(o)) == At(f.conns, Folding(o))
  {
    var g := Happens(f, s, e);
    if e.Accepts? {
      assert multiset(f.conns + [Dialling]) == multiset(f.conns) + multiset{Dialling};
    } else if g != f && !e.Bails? {
      OneConnectionMoves(f, s, e);
      MoveCounts(f.conns, e.i, g.conns[e.i], Folding(o));
    }
  }

  /**
   In every state any number of connections can reach: of each outcome there are as many folds, made or
   about to be, as dials that came to it. `OutcomeIsRight` says what each outcome means.
  */
  lemma {:induction false} EveryDialIsFoldedAsItWas(start: ClientState, s: Settings, events: seq<Event>)
    requires FoldedRight(start, s)
    ensures FoldedRight(After(start, s, events), s)
  {
    if events != [] {
      var f, e := After(start, s, events[..|events| - 1]), events[|events| - 1];
      EveryDialIsFoldedAsItWas(start, s, events[..|events| - 1]);
      if e.Resolves? {
        if In(f, e.i, Dialling) && CanBe(s, e.result) {
          ResolvingFoldsRight(f, s, e.i, e.result);
        }
      } else if e.Folds? {
        if e.i < |f.conns| && f.conns[e.i].Folding? {
          FoldingFoldsRight(f, s, e.i);
        }
      } else {
        TheRestFoldsRight(f, s, e);
      }
    }
  }

  // ---------------------------------------------------------------- every counter is exact

  /** What a dial adds to. */
  datatype Quantity = Kept | Lost | FirstRoundsLost | RoundsRun | StreamsOpened | ThrownAway(kind: DiscardReason)

  function SpentOn(r: DialResult, q: Quantity): nat {
    match q
    case Kept => if r.Dialled? then 1 else 0
    case Lost => if r.GaveUp? then 1 else 0
    case FirstRoundsLost => if r.rounds == [] || r.rounds[0].answered then 0 else 1
    case RoundsRun => |r.rounds|
    case StreamsOpened => TotalOpened(r.rounds)
    case ThrownAway(kind) => Labelled(AllDiscarded(r.rounds), kind)
  }

  function Sum(results: seq<DialResult>, q: Quantity): nat {
    if results == [] then 0 else Sum(results[..|results| - 1], q) + SpentOn(results[|results| - 1], q)
  }

  /** The counter of it. */
  function Scraped(t: Totals, q: Quantity): nat {
    match q
    case Kept => t.established
    case Lost => t.unestablished
    case FirstRoundsLost => t.firstRoundFailures
    case RoundsRun => t.rounds
    case StreamsOpened => t.streamsOpened
    case ThrownAway(kind) => Shown(t.discarded, kind)
  }

  ghost predicate CountedRight(f: ClientState) {
    && (forall q :: Scraped(f.totals, q) == Sum(f.resolved, q))
    && (forall kind :: ShownEnding(f.totals.ended, kind) == EndedUnder(f.endings, kind))
  }

  lemma {:induction false} ThrownAwayIsScraped(t: Totals, r: DialResult, kind: DiscardReason)
    ensures Shown(WithResult(t, r).discarded, kind) == Shown(t.discarded, kind) + Labelled(AllDiscarded(r.rounds), kind)
  {
    RoundsByLabel(t.(rounds := t.rounds + |r.rounds|), r.rounds, kind);
  }

  lemma {:induction false} RoundsAreScraped(t: Totals, r: DialResult, q: Quantity)
    requires q.RoundsRun? || q.StreamsOpened?
    ensures Scraped(WithResult(t, r), q) == Scraped(t, q) + SpentOn(r, q)
  {
    DialCountsRounds(t, r.rounds, RefusedOpen);
  }

  lemma {:induction false} FirstRoundIsScraped(t: Totals, s: Settings, r: DialResult)
    requires CanBe(s, r)
    ensures Scraped(WithResult(t, r), FirstRoundsLost) == Scraped(t, FirstRoundsLost) + SpentOn(r, FirstRoundsLost)
  {
    DialCountsFirstRound(t, r.rounds, Attempts(s), Concurrency(s));
  }

  lemma {:induction false} EndIsScraped(t: Totals, r: DialResult, q: Quantity)
    requires q.Kept? || q.Lost?
    ensures Scraped(WithResult(t, r), q) == Scraped(t, q) + SpentOn(r, q)
    ensures WithResult(t, r).ended == t.ended
  {
    DialLeavesTheRest(t.(rounds := t.rounds + |r.rounds|), r.rounds);
  }

  lemma {:induction false} ResultIsScraped(t: Totals, s: Settings, r: DialResult, q: Quantity)
    requires CanBe(s, r)
    ensures Scraped(WithResult(t, r), q) == Scraped(t, q) + SpentOn(r, q)
    ensures WithResult(t, r).ended == t.ended
  {
    EndIsScraped(t, r, Kept);
    match q
    case ThrownAway(kind) => ThrownAwayIsScraped(t, r, kind);
    case FirstRoundsLost => FirstRoundIsScraped(t, s, r);
    case Kept => EndIsScraped(t, r, q);
    case Lost => EndIsScraped(t, r, q);
    case _ => RoundsAreScraped(t, r, q);
  }

  lemma {:induction false} ResolvingCountsRight(f: ClientState, s: Settings, i: nat, r: DialResult)
    requires CountedRight(f) && In(f, i, Dialling) && CanBe(s, r)
    ensures CountedRight(Resolve(f, s, i, r))
  {
    assert (f.resolved + [r])[..|f.resolved|] == f.resolved;
    forall q ensures Scraped(WithResult(f.totals, r), q) == Sum(f.resolved + [r], q) {
      ResultIsScraped(f.totals, s, r, q);
    }
    ResultIsScraped(f.totals, s, r, Kept);
  }

  lemma {:induction false} EndingCountsRight(f: ClientState, i: nat, ended: Splice.Ended)
    requires CountedRight(f) && In(f, i, Carrying)
    ensures CountedRight(End(f, i, ended))
  {
    var g := End(f, i, ended);
    assert (f.endings + [ended])[..|f.endings|] == f.endings;
    forall kind ensures ShownEnding(g.totals.ended, kind) == EndedUnder(g.endings, kind) {
      EndingByLabel(f.totals.ended, ended, kind);
    }
    forall q ensures Scraped(g.totals, q) == Scraped(f.totals, q) {
    }
  }

  lemma {:induction false} TheRestCountsNothing(f: ClientState, s: Settings, e: Event, q: Quantity)
    requires !e.Resolves? && !e.Ends?
    ensures var g := Happens(f, s, e);
            Scraped(g.totals, q) == Scraped(f.totals, q) && g.totals.ended == f.totals.ended
            && g.resolved == f.resolved && g.endings == f.endings
  {
  }

  /**
   In every state any number of connections can reach, each counter is the sum over the dials resolved so
   far of what it is documented to count, every discard and every ending under its own label.
  */
  lemma {:induction false} EveryCountIsExact(start: ClientState, s: Settings, events: seq<Event>)
    requires CountedRight(start)
    ensures CountedRight(After(start, s, events))
  {
    if events != [] {
      var f, e := After(start, s, events[..|events| - 1]), events[|events| - 1];
      EveryCountIsExact(start, s, events[..|events| - 1]);
      if e.Resolves? {
        if In(f, e.i, Dialling) && CanBe(s, e.result) {
          ResolvingCountsRight(f, s, e.i, e.result);
        }
      } else if e.Ends? {
        if In(f, e.i, Carrying) {
          EndingCountsRight(f, e.i, e.ended);
        }
      } else {
        forall q ensures Scraped(Happens(f, s, e).totals, q) == Sum(f.resolved, q) {
          TheRestCountsNothing(f, s, e, q);
        }
        TheRestCountsNothing(f, s, e, Kept);
      }
    }
  }

  // ---------------------------------------------------------------- shutting down

  /** What is left to happen once nothing is accepted and nobody is waited for. */
  predicate WindsUp(e: Event) { e.Folds? || e.CutDial? || e.CutSplice? || e.DropsGuard? }

  function Wound(f: ClientState, s: Settings, i: nat): ClientState {
    Happens(Happens(Happens(Happens(f, s, CutDial(i)), s, Folds(i)), s, CutSplice(i)), s, DropsGuard(i))
  }

  lemma {:induction false} OneWindsUp(f: ClientState, s: Settings, i: nat)
    requires i < |f.conns|
    ensures Wound(f, s, i).conns == f.conns[i := Gone]
  {
    var dialled := Happens(f, s, CutDial(i));
    assert dialled.conns == f.conns[i := if f.conns[i].Dialling? then Leaving else f.conns[i]];
    var folded := Happens(dialled, s, Folds(i));
    assert folded.conns == f.conns[i := folded.conns[i]] && !folded.conns[i].Dialling? && !folded.conns[i].Folding?;
    var cut := Happens(folded, s, CutSplice(i));
    assert cut.conns == f.conns[i := cut.conns[i]] && (cut.conns[i].Leaving? || cut.conns[i].Gone?);
  }

  lemma {:induction false} AfterSnoc(start: ClientState, s: Settings, events: seq<Event>, e: Event)
    ensures After(start, s, events + [e]) == Happens(After(start, s, events), s, e)
  {
    assert (events + [e])[..|events|] == events;
  }

  lemma {:induction false} WindUp(start: ClientState, s: Settings, n: nat) returns (events: seq<Event>)
    requires n <= |start.conns|
    ensures forall e :: e in events ==> WindsUp(e)
    ensures var f := After(start, s, events);
            |f.conns| == |start.conns| && forall i :: 0 <= i < n ==> f.conns[i] == Gone
  {
    events := [];
    if n > 0 {
      var before := WindUp(start, s, n - 1);
      var f, i := After(start, s, before), n - 1;
      AfterSnoc(start, s, before, CutDial(i));
      AfterSnoc(start, s, before + [CutDial(i)], Folds(i));
      AfterSnoc(start, s, before + [CutDial(i)] + [Folds(i)], CutSplice(i));
      events := before + [CutDial(i)] + [Folds(i)] + [CutSplice(i)] + [DropsGuard(i)];
      AfterSnoc(start, s, before + [CutDial(i)] + [Folds(i)] + [CutSplice(i)], DropsGuard(i));
      OneWindsUp(f, s, i);
    }
  }

  /**
   From every state the counters cohere in, cutting short what is left, with nothing accepted and no dial or
   splice waited for, ends with every connection over and the gauge at zero.
  */
  lemma {:induction false} ShuttingDownEmpties(start: ClientState, s: Settings) returns (events: seq<Event>)
    requires Sound(start)
    ensures forall e :: e in events ==> WindsUp(e)
    ensures var f := After(start, s, events);
            f.totals.inFlight == 0 && forall i :: 0 <= i < |f.conns| ==> f.conns[i] == Gone
  {
    events := WindUp(start, s, |start.conns|);
    EveryRunIsSound(start, s, events);
    AllAt(After(start, s, events).conns, Gone);
  }

  lemma {:induction false} AllAt(conns: seq<Phase>, p: Phase)
    requires forall i :: 0 <= i < |conns| ==> conns[i] == p
    ensures At(conns, p) == |conns|
  {
    if conns != [] {
      var n := |conns| - 1;
      AllAt(conns[..n], p);
      assert conns == conns[..n] + [conns[n]];
    }
  }

  // ---------------------------------------------------------------- the streaks hear of dials, and of nothing else

  /** A connection that carries ends, is cut, or lets go of its guard. */
  predicate Closing(e: Event) { e.Ends? || e.DropsGuard? || e.CutSplice? }

  function WithoutClosings(events: seq<Event>): seq<Event> {
    if events == [] then []
    else
      var rest, e := WithoutClosings(events[..|events| - 1]), events[|events| - 1];
      if Closing(e) then rest else rest + [e]
  }

  predicate Unresolved(p: Phase) { p.Dialling? || p.Folding? }

  /** The same but for connections whose dials are over and done with. */
  ghost predicate Alike(f: ClientState, g: ClientState) {
    && f.history == g.history && f.bailed == g.bailed && |f.conns| == |g.conns|
    && forall i :: 0 <= i < |f.conns| && (Unresolved(f.conns[i]) || Unresolved(g.conns[i])) ==> f.conns[i] == g.conns[i]
  }

  lemma {:induction false} ClosingKeepsAlike(f: ClientState, g: ClientState, s: Settings, e: Event)
    requires Alike(f, g) && Closing(e)
    ensures Alike(Happens(f, s, e), g)
  {
  }

  lemma {:induction false} ResolvingKeepsAlike(f: ClientState, g: ClientState, s: Settings, i: nat, r: DialResult)
    requires Alike(f, g) && In(f, i, Dialling)
    ensures In(g, i, Dialling) && Alike(Resolve(f, s, i, r), Resolve(g, s, i, r))
  {
  }

  lemma {:induction false} FoldingKeepsAlike(f: ClientState, g: ClientState, i: nat)
    requires Alike(f, g) && i < |f.conns| && f.conns[i].Folding?
    ensures i < |g.conns| && g.conns[i].Folding? && Alike(Fold(f, i), Fold(g, i))
  {
  }

  lemma {:induction false} StepsKeepAlike(f: ClientState, g: ClientState, s: Settings, e: Event)
    requires Alike(f, g) && !Closing(e)
    ensures Alike(Happens(f, s, e), Happens(g, s, e))
  {
    if e.Resolves? {
      if In(f, e.i, Dialling) {
        ResolvingKeepsAlike(f, g, s, e.i, e.result);
      }
    } else if e.Folds? {
      if e.i < |f.conns| && f.conns[e.i].Folding? {
        FoldingKeepsAlike(f, g, e.i);
      }
    }
  }

  lemma {:induction false} RunsStayAlike(start: ClientState, s: Settings, events: seq<Event>)
    ensures Alike(After(start, s, events), After(start, s, WithoutClosings(events)))
  {
    if events != [] {
      var before, e := events[..|events| - 1], events[|events| - 1];
      RunsStayAlike(start, s, before);
      if Closing(e) {
        ClosingKeepsAlike(After(start, s, before), After(start, s, WithoutClosings(before)), s, e);
      } else {
        StepsKeepAlike(After(start, s, before), After(start, s, WithoutClosings(before)), s, e);
        assert (WithoutClosings(before) + [e])[..|WithoutClosings(before)|] == WithoutClosings(before);
      }
    }
  }

  /** Strike every ending of a carried connection from a run, and the streaks come out the same. */
  lemma {:induction false} ClosingsLeaveTheStreaksAlone(start: ClientState, s: Settings, events: seq<Event>)
    ensures After(start, s, events).history == After(start, s, WithoutClosings(events)).history
    ensures After(start, s, events).bailed <==> After(start, s, WithoutClosings(events)).bailed
  {
    RunsStayAlike(start, s, events);
  }

  lemma {:induction false} BailedMeansDeclaredDead(start: ClientState, s: Settings, events: seq<Event>)
    requires !start.bailed
    ensures After(start, s, events).bailed ==> Streaks.DeclaredDead(After(start, s, events).history)
  {
    if events != [] {
      var before, e := After(start, s, events[..|events| - 1]), events[|events| - 1];
      BailedMeansDeclaredDead(start, s, events[..|events| - 1]);
      if e.Folds? && e.i < |before.conns| && before.conns[e.i].Folding? {
        Streaks.FoldSnoc(before.history, before.conns[e.i].outcome);
      }
    }
  }

  /**
   The loop may give up on the local client exactly once five dials in a row, as they were folded, have
   opened nothing; and having done so it accepts nothing more.
  */
  lemma {:induction false} BailsExactlyOnADeadClient(start: ClientState, s: Settings, events: seq<Event>)
    requires !start.bailed
    ensures var h := After(start, s, events).history;
            After(start, s, events + [Bails]).bailed
            <==> exists i: nat :: i + 5 <= |h| && Streaks.FiveFrom(h, i)
    ensures After(start, s, events).bailed ==>
              |After(start, s, events + [Accepts]).conns| == |After(start, s, events).conns|
  {
    AfterSnoc(start, s, events, Bails);
    AfterSnoc(start, s, events, Accepts);
    BailedMeansDeclaredDead(start, s, events);
    Streaks.DeclaredDeadMeans(After(start, s, events).history);
  }

  // ---------------------------------------------------------------- one carried connection is one path

  function Reported(f: ClientState, s: Settings, i: nat, r: DialResult): ClientState {
    Happens(Happens(f, s, Resolves(i, r)), s, Folds(i))
  }

  function Path(f: ClientState, s: Settings, i: nat, r: DialResult, ended: Splice.Ended): ClientState {
    var reported := Reported(Happens(f, s, Accepts), s, i, r);
    Happens(if r.Dialled? then Happens(reported, s, Ends(i, ended)) else reported, s, DropsGuard(i))
  }

  lemma {:induction false} ReportingIsAPath(f: ClientState, s: Settings, i: nat, r: DialResult)
    requires In(f, i, Dialling) && CanBe(s, r)
    ensures var g := Reported(f, s, i, r);
            && g.totals == WithResult(f.totals, r) && g.history == f.history + [OutcomeOf(s, r)]
            && |g.conns| == |f.conns| && g.conns == f.conns[i := if r.Dialled? then Carrying else Leaving]
  {
    var resolved := Resolve(f, s, i, r);
    assert Happens(f, s, Resolves(i, r)) == resolved;
    assert Happens(resolved, s, Folds(i)) == Fold(resolved, i);
  }

  /** What `Carry` counts and folds is what its path through the accept loop counts and folds. */
  lemma {:induction false} CarryingIsAPath(f: ClientState, s: Settings, r: DialResult, ended: Splice.Ended)
    requires !f.bailed && CanBe(s, r)
    ensures var g := Path(f, s, |f.conns|, r, ended);
            && g.totals == Carried(f.totals, r, ended)
            && g.history == f.history + [OutcomeOf(s, r)]
            && g.conns == f.conns + [Gone]
  {
    var i, accepted := |f.conns|, Happens(f, s, Accepts);
    ReportingIsAPath(accepted, s, i, r);
    var reported := Reported(accepted, s, i, r);
    if r.Dialled? {
      assert Happens(reported, s, Ends(i, ended)) == End(reported, i, ended);
    }
  }
}
