/**
 What each half counts. A counter with a label is one count a label; a guard holds a gauge up until it
 is dropped.
*/
module Metrics {
  import opened Handshake
  import opened Dial
  import Splice

  // ---------------------------------------------------------------- labels

  datatype Reason = Unanswered | Io | Foreign | UnknownVersion | WrongToken

  function ReasonOf(error: HandshakeError): Reason {
    match error
    case TimedOut => Reason.Unanswered
    case Read => Io
    case Write => Io
    case ForeignStream => Foreign
    case UnsupportedVersion(_) => UnknownVersion
    case TokenMismatch(_, _) => WrongToken
  }

  datatype Reasons = Reasons(unanswered: nat, io: nat, foreign: nat, unknownVersion: nat, wrongToken: nat) {
    function Bumped(reason: Reason): Reasons {
      match reason
      case Unanswered => this.(unanswered := unanswered + 1)
      case Io => this.(io := io + 1)
      case Foreign => this.(foreign := foreign + 1)
      case UnknownVersion => this.(unknownVersion := unknownVersion + 1)
      case WrongToken => this.(wrongToken := wrongToken + 1)
    }

    function Total(): nat { unanswered + io + foreign + unknownVersion + wrongToken }
  }

  datatype DiscardReason = RefusedOpen | FailedProbe(reason: Reason)

  /** A refused open is this machine failing, and is kept apart from everything the far side did. */
  function DiscardReasonOf(error: DialError): DiscardReason {
    match error
    case Open(_) => RefusedOpen
    case Probe(probe) => FailedProbe(ReasonOf(probe))
  }

  datatype Discards = Discards(refusedOpen: nat, probes: Reasons) {
    function Bumped(reason: DiscardReason): Discards {
      match reason
      case RefusedOpen => this.(refusedOpen := refusedOpen + 1)
      case FailedProbe(reason) => this.(probes := probes.Bumped(reason))
    }
  }

  datatype Ending = ByClose | ByStall | ByIdle | ByFailure

  function EndingOf(ended: Splice.Ended): Ending {
    match ended
    case Closed => ByClose
    case Stalled(_) => ByStall
    case Idle(_) => ByIdle
    case Failed(_) => ByFailure
  }

  datatype Endings = Endings(closed: nat, stalled: nat, idle: nat, failed: nat) {
    function Bumped(ending: Ending): Endings {
      match ending
      case ByClose => this.(closed := closed + 1)
      case ByStall => this.(stalled := stalled + 1)
      case ByIdle => this.(idle := idle + 1)
      case ByFailure => this.(failed := failed + 1)
    }

    function Total(): nat { closed + stalled + idle + failed }
  }

  // ---------------------------------------------------------------- the dialling half

  /** The counters as one value; `established` is how many waits the histogram holds. */
  datatype Totals = Totals(
    connections: nat, inFlight: int, established: nat, unestablished: nat, firstRoundFailures: nat,
    rounds: nat, streamsOpened: nat, discarded: Discards, ended: Endings)

  predicate Unused(t: Totals) {
    && t.connections == 0 && t.inFlight == 0 && t.established == 0 && t.unestablished == 0
    && t.firstRoundFailures == 0 && t.rounds == 0 && t.streamsOpened == 0
    && t.discarded.refusedOpen == 0 && t.discarded.probes.Total() == 0 && t.ended.Total() == 0
  }

  function Tallied(d: Discards, thrownAway: seq<Discarded>): Discards {
    if thrownAway == [] then d
    else Tallied(d, thrownAway[..|thrownAway| - 1]).Bumped(DiscardReasonOf(thrownAway[|thrownAway| - 1].error))
  }

  function Accepting(t: Totals): Totals { t.(connections := t.connections + 1, inFlight := t.inFlight + 1) }

  function WithRound(t: Totals, r: Round): Totals {
    t.(streamsOpened := t.streamsOpened + r.streamsOpened, discarded := Tallied(t.discarded, r.discarded))
  }

  function WithRounds(t: Totals, rounds: seq<Round>): Totals {
    if rounds == [] then t else WithRound(WithRounds(t, rounds[..|rounds| - 1]), rounds[|rounds| - 1])
  }

  /** Counted once for each dial, kept stream or none. */
  function WithDial(t: Totals, rounds: seq<Round>): Totals {
    var after := WithRounds(t.(rounds := t.rounds + |rounds|), rounds);
    after.(firstRoundFailures := after.firstRoundFailures + if FirstRoundFailed(rounds) then 1 else 0)
  }

  function WithResult(t: Totals, result: DialResult): Totals {
    match result
    case Dialled(_, rounds) => var after := WithDial(t, rounds); after.(established := after.established + 1)
    case GaveUp(rounds) => var after := WithDial(t, rounds); after.(unestablished := after.unestablished + 1)
  }

  function WithEnding(t: Totals, ended: Splice.Ended): Totals { t.(ended := t.ended.Bumped(EndingOf(ended))) }

  function WithoutGuard(t: Totals): Totals { t.(inFlight := t.inFlight - 1) }

  class ClientMetrics {
    var connections: nat
    var inFlight: int
    var establishment: nat
    var unestablished: nat
    var firstRoundFailures: nat
    var rounds: nat
    var streamsOpened: nat
    var discarded: Discards
    var ended: Endings

    ghost function Read(): Totals
      reads this
    {
      Totals(connections, inFlight, establishment, unestablished, firstRoundFailures,
             rounds, streamsOpened, discarded, ended)
    }

    constructor ()
      ensures Unused(Read())
    {
      connections, inFlight, establishment, unestablished, firstRoundFailures := 0, 0, 0, 0, 0;
      rounds, streamsOpened, discarded, ended := 0, 0, Discards(0, Reasons(0, 0, 0, 0, 0)), Endings(0, 0, 0, 0);
    }

    method ConnectionAccepted()
      modifies this
      ensures Read() == Accepting(old(Read()))
    {
      connections := connections + 1;
      inFlight := inFlight + 1;
    }

    method Established(rounds: seq<Round>, answer: Answer)
      modifies this
      ensures Read() == WithResult(old(Read()), Dialled(answer, rounds))
    {
      CountDial(rounds);
      establishment := establishment + 1;
    }

    method GaveUp(rounds: seq<Round>)
      modifies this
      ensures Read() == WithResult(old(Read()), DialResult.GaveUp(rounds))
    {
      CountDial(rounds);
      unestablished := unestablished + 1;
    }

    method CountDial(played: seq<Round>)
      modifies this
      ensures Read() == WithDial(old(Read()), played)
    {
      rounds := rounds + |played|;
      ghost var start := Read();
      var i := 0;
      while i < |played|
        invariant 0 <= i <= |played|
        invariant Read() == WithRounds(start, played[..i])
      {
        assert played[..i + 1][..i] == played[..i];
        CountRound(played[i]);
        i := i + 1;
      }
      assert played[..i] == played;
      if |played| > 0 && !played[0].answered {
        firstRoundFailures := firstRoundFailures + 1;
      }
    }

    method CountRound(round: Round)
      modifies this
      ensures Read() == WithRound(old(Read()), round)
    {
      streamsOpened := streamsOpened + round.streamsOpened;
      CountDiscards(round.discarded);
    }

    method CountDiscards(thrownAway: seq<Discarded>)
      modifies this
      ensures Read() == old(Read()).(discarded := Tallied(old(discarded), thrownAway))
    {
      var i := 0;
      while i < |thrownAway|
        invariant 0 <= i <= |thrownAway|
        invariant Read() == old(Read()).(discarded := Tallied(old(discarded), thrownAway[..i]))
      {
        assert thrownAway[..i + 1][..i] == thrownAway[..i];
        discarded := discarded.Bumped(DiscardReasonOf(thrownAway[i].error));
        i := i + 1;
      }
      assert thrownAway[..i] == thrownAway;
    }

    method Finished(how: Splice.Ended)
      modifies this
      ensures Read() == WithEnding(old(Read()), how)
    {
      ended := ended.Bumped(EndingOf(how));
    }

    /** What dropping the guard of `ConnectionAccepted` does. */
    method DropGuard()
      modifies this
      ensures Read() == WithoutGuard(old(Read()))
    {
      inFlight := inFlight - 1;
    }
  }

  // ---------------------------------------------------------------- what one dial adds up to

  lemma {:induction false} TallyCounts(d: Discards, thrownAway: seq<Discarded>)
    ensures Tallied(d, thrownAway).refusedOpen == d.refusedOpen + CountRefused(thrownAway)
    ensures Tallied(d, thrownAway).probes.Total() == d.probes.Total() + |thrownAway| - CountRefused(thrownAway)
  {
    if thrownAway != [] {
      TallyCounts(d, thrownAway[..|thrownAway| - 1]);
    }
  }

  /** Which errors a label is for. */
  predicate Falls(error: DialError, kind: DiscardReason) {
    match kind
    case RefusedOpen => error.Open?
    case FailedProbe(Unanswered) => error == Probe(TimedOut)
    case FailedProbe(Io) => error == Probe(Read) || error == Probe(Write)
    case FailedProbe(Foreign) => error == Probe(ForeignStream)
    case FailedProbe(UnknownVersion) => error.Probe? && error.error.UnsupportedVersion?
    case FailedProbe(WrongToken) => error.Probe? && error.error.TokenMismatch?
  }

  /** The count a scrape shows under a label. */
  function Shown(d: Discards, kind: DiscardReason): nat {
    match kind
    case RefusedOpen => d.refusedOpen
    case FailedProbe(reason) => ShownFor(d.probes, reason)
  }

  function ShownFor(r: Reasons, reason: Reason): nat {
    match reason
    case Unanswered => r.unanswered
    case Io => r.io
    case Foreign => r.foreign
    case UnknownVersion => r.unknownVersion
    case WrongToken => r.wrongToken
  }

  /** How many of these were thrown away for something the label is for. */
  function Labelled(thrownAway: seq<Discarded>, kind: DiscardReason): nat {
    if thrownAway == [] then 0
    else
      var n := |thrownAway| - 1;
      Labelled(thrownAway[..n], kind) + if Falls(thrownAway[n].error, kind) then 1 else 0
  }

  /** Every label shows exactly the discards it is for. */
  lemma {:induction false} TallyByLabel(d: Discards, thrownAway: seq<Discarded>, kind: DiscardReason)
    ensures Shown(Tallied(d, thrownAway), kind) == Shown(d, kind) + Labelled(thrownAway, kind)
  {
    if thrownAway != [] {
      TallyByLabel(d, thrownAway[..|thrownAway| - 1], kind);
    }
  }

  lemma {:induction false} LabelledJoin(a: seq<Discarded>, b: seq<Discarded>, kind: DiscardReason)
    ensures Labelled(a + b, kind) == Labelled(a, kind) + Labelled(b, kind)
  {
    if b == [] {
      assert a + b == a;
    } else {
      var n := |b| - 1;
      assert (a + b)[..|a + b| - 1] == a + b[..n];
      LabelledJoin(a, b[..n], kind);
    }
  }

  /** Everything these rounds threw away, in order. */
  function AllDiscarded(rounds: seq<Round>): seq<Discarded> {
    if rounds == [] then [] else AllDiscarded(rounds[..|rounds| - 1]) + rounds[|rounds| - 1].discarded
  }

  lemma {:induction false} RoundsByLabel(t: Totals, rounds: seq<Round>, kind: DiscardReason)
    ensures Shown(WithRounds(t, rounds).discarded, kind)
         == Shown(t.discarded, kind) + Labelled(AllDiscarded(rounds), kind)
    ensures WithRounds(t, rounds).streamsOpened == t.streamsOpened + TotalOpened(rounds)
  {
    if rounds != [] {
      var n := |rounds| - 1;
      RoundsByLabel(t, rounds[..n], kind);
      TallyByLabel(WithRounds(t, rounds[..n]).discarded, rounds[n].discarded, kind);
      LabelledJoin(AllDiscarded(rounds[..n]), rounds[n].discarded, kind);
    }
  }

  lemma {:induction false} DialCountsRounds(t: Totals, rounds: seq<Round>, kind: DiscardReason)
    ensures var u := WithDial(t, rounds);
            && u.rounds == t.rounds + |rounds|
            && u.streamsOpened == t.streamsOpened + TotalOpened(rounds)
            && Shown(u.discarded, kind) == Shown(t.discarded, kind) + Labelled(AllDiscarded(rounds), kind)
  {
    var start := t.(rounds := t.rounds + |rounds|);
    RoundsByLabel(start, rounds, kind);
    DialLeavesTheRest(start, rounds);
  }

  lemma {:induction false} DialCountsFirstRound(t: Totals, rounds: seq<Round>, a: nat, c: Positive)
    requires a > 0 && Ladder(rounds, a, c)
    ensures WithDial(t, rounds).firstRoundFailures == t.firstRoundFailures + (if rounds[0].answered then 0 else 1)
    ensures !rounds[0].answered <==> NoAnswer(rounds) || |rounds| > 1
  {
    DialLeavesTheRest(t.(rounds := t.rounds + |rounds|), rounds);
  }

  /**
   Every count a dial makes: its rounds, the streams they opened, what they threw away under each label,
   and whether its first round kept nothing, which is to say it gave up or went on to a second.
  */
  lemma {:induction false} DialCountsExactly(t: Totals, rounds: seq<Round>, a: nat, c: Positive, kind: DiscardReason)
    requires a > 0 && Ladder(rounds, a, c)
    ensures var u := WithDial(t, rounds);
            && u.rounds == t.rounds + |rounds|
            && u.streamsOpened == t.streamsOpened + TotalOpened(rounds)
            && Shown(u.discarded, kind) == Shown(t.discarded, kind) + Labelled(AllDiscarded(rounds), kind)
            && u.firstRoundFailures == t.firstRoundFailures + (if rounds[0].answered then 0 else 1)
            && (!rounds[0].answered <==> NoAnswer(rounds) || |rounds| > 1)
  {
    DialCountsRounds(t, rounds, kind);
    DialCountsFirstRound(t, rounds, a, c);
  }

  /** Which endings a label is for. */
  predicate EndsUnder(ended: Splice.Ended, kind: Ending) {
    match kind
    case ByClose => ended == Splice.Closed
    case ByStall => ended.Stalled?
    case ByIdle => ended.Idle?
    case ByFailure => ended.Failed?
  }

  function ShownEnding(e: Endings, kind: Ending): nat {
    match kind
    case ByClose => e.closed
    case ByStall => e.stalled
    case ByIdle => e.idle
    case ByFailure => e.failed
  }

  lemma {:induction false} EndingByLabel(e: Endings, ended: Splice.Ended, kind: Ending)
    ensures ShownEnding(e.Bumped(EndingOf(ended)), kind)
         == ShownEnding(e, kind) + if EndsUnder(ended, kind) then 1 else 0
  {
  }

  lemma {:induction false} ReasonByLabel(r: Reasons, error: HandshakeError, kind: Reason)
    ensures ShownFor(r.Bumped(ReasonOf(error)), kind)
         == ShownFor(r, kind) + if Falls(Probe(error), FailedProbe(kind)) then 1 else 0
  {
  }

  /** How many of these endings the label is for. */
  function EndedUnder(endings: seq<Splice.Ended>, kind: Ending): nat {
    if endings == [] then 0
    else
      var n := |endings| - 1;
      EndedUnder(endings[..n], kind) + if EndsUnder(endings[n], kind) then 1 else 0
  }

  /** How many of these rejections the label is for. */
  function RejectedFor(errors: seq<HandshakeError>, kind: Reason): nat {
    if errors == [] then 0
    else
      var n := |errors| - 1;
      RejectedFor(errors[..n], kind) + if Falls(Probe(errors[n]), FailedProbe(kind)) then 1 else 0
  }

  /** Streams opened that no failed probe accounts for. */
  function Unfailed(t: Totals): int { t.streamsOpened - t.discarded.probes.Total() }

  lemma {:induction false} RoundAddsUp(t: Totals, r: Round)
    ensures Unfailed(WithRound(t, r)) == Unfailed(t) + r.streamsOpened - Dial.Unanswered(r)
  {
    TallyCounts(t.discarded, r.discarded);
  }

  lemma {:induction false} RoundsGrow(t: Totals, rounds: seq<Round>, k: nat)
    requires 0 < k <= |rounds|
    ensures WithRounds(t, rounds[..k]) == WithRound(WithRounds(t, rounds[..k - 1]), rounds[k - 1])
    ensures TotalCancelled(rounds[..k]) == TotalCancelled(rounds[..k - 1]) + Cancelled(rounds[k - 1])
  {
    assert rounds[..k][..k - 1] == rounds[..k - 1];
  }

  lemma {:induction false} RoundsAddUp(t: Totals, rounds: seq<Round>, k: nat)
    requires k <= |rounds| && Booked(rounds)
    ensures Unfailed(WithRounds(t, rounds[..k]))
         == Unfailed(t) + TotalCancelled(rounds[..k]) + if k == |rounds| && !NoAnswer(rounds) then 1 else 0
  {
    if k > 0 {
      RoundsAddUp(t, rounds, k - 1);
      RoundsGrow(t, rounds, k);
      assert BookedAt(rounds, k - 1, !NoAnswer(rounds));
      RoundAddsUp(WithRounds(t, rounds[..k - 1]), rounds[k - 1]);
    }
  }

  /**
   Every stream a dial opened was kept, failed its probe, or was let go when another answered; and a
   dial that gave up failed its first round.
  */
  lemma {:induction false} DialAddsUp(t: Totals, rounds: seq<Round>, a: nat, c: Positive)
    requires a > 0 && Ladder(rounds, a, c)
    ensures Unfailed(WithDial(t, rounds)) == Unfailed(t) + TotalCancelled(rounds) + if NoAnswer(rounds) then 0 else 1
    ensures NoAnswer(rounds) ==> FirstRoundFailed(rounds)
  {
    var start := t.(rounds := t.rounds + |rounds|);
    LadderIsBooked(rounds, a, c);
    RoundsAddUp(start, rounds, |rounds|);
    assert rounds[..|rounds|] == rounds;
    assert Unfailed(start) == Unfailed(t);
    assert Unfailed(WithDial(t, rounds)) == Unfailed(WithRounds(start, rounds));
  }

  /** A dial touches nothing but what dials cost. */
  lemma {:induction false} DialLeavesTheRest(t: Totals, rounds: seq<Round>)
    ensures WithRounds(t, rounds)
            == t.(streamsOpened := WithRounds(t, rounds).streamsOpened, discarded := WithRounds(t, rounds).discarded)
  {
    if rounds != [] {
      DialLeavesTheRest(t, rounds[..|rounds| - 1]);
    }
  }

  // ---------------------------------------------------------------- the listening half

  /** `shed` is the over-capacity label of the rejections. */
  datatype Ledger = Ledger(
    shed: nat, accepted: nat, rejected: Reasons, withoutRequest: nat,
    upstreamFailures: nat, connected: nat, ended: Endings, inFlight: int)

  predicate Blank(l: Ledger) {
    && l.shed == 0 && l.accepted == 0 && l.rejected.Total() == 0 && l.withoutRequest == 0
    && l.upstreamFailures == 0 && l.connected == 0 && l.ended.Total() == 0 && l.inFlight == 0
  }

  datatype Mark =
    | StreamShed
    | StreamRejected(reason: Reason)
    | StreamAccepted
    | StreamWithoutRequest
    | UpstreamUnreachable
    | UpstreamConnected
    | Finished(ending: Ending)
    | GuardDropped

  function Marked(l: Ledger, m: Mark): Ledger {
    match m
    case StreamShed => l.(shed := l.shed + 1)
    case StreamRejected(reason) => l.(rejected := l.rejected.Bumped(reason))
    case StreamAccepted => l.(accepted := l.accepted + 1)
    case StreamWithoutRequest => l.(withoutRequest := l.withoutRequest + 1)
    case UpstreamUnreachable => l.(upstreamFailures := l.upstreamFailures + 1)
    case UpstreamConnected => l.(connected := l.connected + 1, inFlight := l.inFlight + 1)
    case Finished(ending) => l.(ended := l.ended.Bumped(ending))
    case GuardDropped => l.(inFlight := l.inFlight - 1)
  }

  function MarkedAll(l: Ledger, marks: seq<Mark>): Ledger {
    if marks == [] then l else Marked(MarkedAll(l, marks[..|marks| - 1]), marks[|marks| - 1])
  }

  lemma {:induction false} MarkSnoc(l: Ledger, marks: seq<Mark>, m: Mark)
    ensures MarkedAll(l, marks + [m]) == Marked(MarkedAll(l, marks), m)
  {
    assert (marks + [m])[..|marks|] == marks;
  }

  lemma {:induction false} OneMark(l: Ledger, m: Mark)
    ensures MarkedAll(l, [m]) == Marked(l, m)
  {
    MarkSnoc(l, [], m);
    assert [] + [m] == [m];
  }

  lemma {:induction false} TwoMarks(l: Ledger, m: Mark, n: Mark)
    ensures MarkedAll(l, [m, n]) == Marked(Marked(l, m), n)
  {
    OneMark(l, m);
    MarkSnoc(l, [m], n);
    assert [m] + [n] == [m, n];
  }

  lemma {:induction false} MarkFirst(l: Ledger, m: Mark, marks: seq<Mark>)
    ensures MarkedAll(l, [m] + marks) == MarkedAll(Marked(l, m), marks)
  {
    if marks == [] {
      OneMark(l, m);
      assert [m] + marks == [m];
    } else {
      var rest, last := marks[..|marks| - 1], marks[|marks| - 1];
      MarkFirst(l, m, rest);
      MarkSnoc(l, [m] + rest, last);
      assert [m] + rest + [last] == [m] + marks;
    }
  }

  class ServerMetrics {
    var overCapacity: nat
    var streamsAccepted: nat
    var streamsRejected: Reasons
    var streamsWithoutRequest: nat
    var upstreamFailures: nat
    var upstreamConnections: nat
    var ended: Endings
    var inFlight: int

    ghost function Read(): Ledger
      reads this
    {
      Ledger(overCapacity, streamsAccepted, streamsRejected, streamsWithoutRequest, upstreamFailures,
             upstreamConnections, ended, inFlight)
    }

    constructor ()
      ensures Blank(Read())
    {
      overCapacity, streamsAccepted, streamsRejected, streamsWithoutRequest := 0, 0, Reasons(0, 0, 0, 0, 0), 0;
      upstreamFailures, upstreamConnections, ended, inFlight := 0, 0, Endings(0, 0, 0, 0), 0;
    }

    method DropOverCapacity()
      modifies this
      ensures Read() == Marked(old(Read()), StreamShed)
    {
      overCapacity := overCapacity + 1;
    }

    method Reject(error: HandshakeError)
      modifies this
      ensures Read() == Marked(old(Read()), StreamRejected(ReasonOf(error)))
    {
      streamsRejected := streamsRejected.Bumped(ReasonOf(error));
    }

    method Accept()
      modifies this
      ensures Read() == Marked(old(Read()), StreamAccepted)
    {
      streamsAccepted := streamsAccepted + 1;
    }

    method WithoutRequest()
      modifies this
      ensures Read() == Marked(old(Read()), StreamWithoutRequest)
    {
      streamsWithoutRequest := streamsWithoutRequest + 1;
    }

    method Unreachable()
      modifies this
      ensures Read() == Marked(old(Read()), UpstreamUnreachable)
    {
      upstreamFailures := upstreamFailures + 1;
    }

    method Connected()
      modifies this
      ensures Read() == Marked(old(Read()), UpstreamConnected)
    {
      upstreamConnections := upstreamConnections + 1;
      inFlight := inFlight + 1;
    }

    method Finish(how: Splice.Ended)
      modifies this
      ensures Read() == Marked(old(Read()), Mark.Finished(EndingOf(how)))
    {
      ended := ended.Bumped(EndingOf(how));
    }

    /** What dropping the guard of `Connected` does. */
    method DropGuard()
      modifies this
      ensures Read() == Marked(old(Read()), GuardDropped)
    {
      inFlight := inFlight - 1;
    }
  }
}
