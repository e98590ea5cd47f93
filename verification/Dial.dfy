/**
 Opening a stream that answers: a budget of attempts spent in rounds of streams that race.

 What the transport does in a round is a script: what each open came to, in order, and the probes
 of the opened streams in the order they finish. Elapsed times count from the start of the round.
*/
module Dial {
  import opened Wrappers
  import opened Handshake

  type Positive = n: nat | 0 < n < 0x1_0000_0000 witness 1

  datatype Budget = Budget(attempts: Positive, concurrency: Positive)

  /** Without a probe the header is sent and nothing is waited for. */
  datatype Settings = Settings(probe: Option<Budget>)

  datatype DialError = Open(code: int) | Probe(error: HandshakeError)

  datatype Discarded = Discarded(elapsed: nat, error: DialError)

  datatype Round = Round(streamsOpened: nat, discarded: seq<Discarded>, answered: bool)

  /** The stream a round keeps, named by its place among the round's opens. */
  datatype Answer = Answer(stream: nat, elapsed: nat)

  datatype DialResult =
    | Dialled(answer: Answer, rounds: seq<Round>)
    | GaveUp(rounds: seq<Round>)

  // ---------------------------------------------------------------- what the transport may do

  datatype OpenResult = Opened | Refused(elapsed: nat, code: int)

  datatype Finish = Finish(stream: nat, elapsed: nat, error: Option<HandshakeError>)

  datatype Script =
    Script(opens: seq<OpenResult>, finishes: seq<Finish>, announced: nat, announceError: Option<HandshakeError>)

  /** The places of the opens that produced a stream. */
  function OpenedAt(opens: seq<OpenResult>): seq<nat> {
    if opens == [] then []
    else
      var n := |opens| - 1;
      if opens[n].Opened? then OpenedAt(opens[..n]) + [n] else OpenedAt(opens[..n])
  }

  lemma {:induction false} OpenedAtIsOpened(opens: seq<OpenResult>, p: nat)
    ensures p in OpenedAt(opens) <==> p < |opens| && opens[p].Opened?
  {
    if opens != [] {
      OpenedAtIsOpened(opens[..|opens| - 1], p);
    }
  }

  function Streams(finishes: seq<Finish>): (streams: seq<nat>)
    ensures |streams| == |finishes|
  {
    if finishes == [] then [] else Streams(finishes[..|finishes| - 1]) + [finishes[|finishes| - 1].stream]
  }

  lemma {:induction false} StreamAt(finishes: seq<Finish>, i: nat)
    requires i < |finishes|
    ensures Streams(finishes)[i] == finishes[i].stream
  {
    if i < |finishes| - 1 {
      StreamAt(finishes[..|finishes| - 1], i);
    }
  }

  predicate InOrder(opens: seq<OpenResult>) {
    forall i, j :: 0 <= i < j < |opens| && opens[i].Refused? && opens[j].Refused? ==>
      opens[i].elapsed <= opens[j].elapsed
  }

  /**
   `script` is a round of `size` streams: every opened stream's probe finishes exactly once, in some
   order, and the clock does not go back.
  */
  ghost predicate Plays(script: Script, size: nat, probing: bool) {
    && |script.opens| == size
    && InOrder(script.opens)
    && (probing ==>
          && multiset(Streams(script.finishes)) == multiset(OpenedAt(script.opens))
          && (forall i, j :: 0 <= i < j < |script.finishes| ==>
                script.finishes[i].elapsed <= script.finishes[j].elapsed)
          && (forall i, j :: 0 <= i < size && script.opens[i].Refused? && 0 <= j < |script.finishes| ==>
                script.opens[i].elapsed <= script.finishes[j].elapsed))
    && (!probing ==>
          forall i :: 0 <= i < size && script.opens[i].Refused? ==> script.opens[i].elapsed <= script.announced)
  }

  // ---------------------------------------------------------------- one round

  function CountRefused(discarded: seq<Discarded>): (n: nat)
    ensures n <= |discarded|
  {
    if discarded == [] then 0
    else CountRefused(discarded[..|discarded| - 1]) + if discarded[|discarded| - 1].error.Open? then 1 else 0
  }

  /** Every try at opening a stream, refusals included. */
  function Attempted(r: Round): nat { r.streamsOpened + CountRefused(r.discarded) }

  /** Opened streams thrown away because of their probe. */
  function Unanswered(r: Round): nat { |r.discarded| - CountRefused(r.discarded) }

  /** Streams opened and then abandoned, because another answered first. */
  function Cancelled(r: Round): nat {
    SaturatingSub(SaturatingSub(r.streamsOpened, Unanswered(r)), if r.answered then 1 else 0)
  }

  function Refusals(opens: seq<OpenResult>): seq<Discarded> {
    if opens == [] then []
    else
      var n := |opens| - 1;
      if opens[n].Refused? then Refusals(opens[..n]) + [Discarded(opens[n].elapsed, Open(opens[n].code))]
      else Refusals(opens[..n])
  }

  /** The place of the first probe to be answered, or how many there are. */
  function FirstEcho(finishes: seq<Finish>): (i: nat)
    ensures i <= |finishes|
    ensures forall j :: 0 <= j < i ==> finishes[j].error.Some?
    ensures i < |finishes| ==> finishes[i].error.None?
  {
    if finishes == [] || finishes[0].error.None? then 0 else 1 + FirstEcho(finishes[1..])
  }

  function Failures(finishes: seq<Finish>): (ds: seq<Discarded>)
    requires forall j :: 0 <= j < |finishes| ==> finishes[j].error.Some?
    ensures |ds| == |finishes|
  {
    if finishes == [] then []
    else
      var n := |finishes| - 1;
      Failures(finishes[..n]) + [Discarded(finishes[n].elapsed, Probe(finishes[n].error.value))]
  }

  lemma {:induction false} FailureAt(finishes: seq<Finish>, i: nat)
    requires forall j :: 0 <= j < |finishes| ==> finishes[j].error.Some?
    requires i < |finishes|
    ensures Failures(finishes)[i] == Discarded(finishes[i].elapsed, Probe(finishes[i].error.value))
  {
    if i < |finishes| - 1 {
      FailureAt(finishes[..|finishes| - 1], i);
    }
  }

  /** What failed before the first probe was answered. */
  function BeforeEcho(finishes: seq<Finish>): seq<Discarded> { Failures(finishes[..FirstEcho(finishes)]) }

  function Echoed(finishes: seq<Finish>): Option<Answer> {
    var i := FirstEcho(finishes);
    if i < |finishes| then Some(Answer(finishes[i].stream, finishes[i].elapsed)) else None
  }

  datatype RoundResult = RoundResult(answer: Option<Answer>, round: Round)

  /** What a round comes to. */
  function RoundOf(probing: bool, script: Script): RoundResult {
    var places := OpenedAt(script.opens);
    var refusals := Refusals(script.opens);
    if probing then
      var echoed := Echoed(script.finishes);
      RoundResult(echoed, Round(|places|, refusals + BeforeEcho(script.finishes), echoed.Some?))
    else if places == [] then RoundResult(None, Round(0, refusals, false))
    else if script.announceError.None?
    then RoundResult(Some(Answer(places[|places| - 1], script.announced)), Round(|places|, refusals, true))
    else RoundResult(None, Round(|places|,
                             refusals + [Discarded(script.announced, Probe(script.announceError.value))], false))
  }

  /** The opens of a round, one after another. */
  method OpenStreams(opens: seq<OpenResult>) returns (places: seq<nat>, refused: seq<Discarded>)
    ensures places == OpenedAt(opens) && refused == Refusals(opens)
  {
    places, refused := [], [];
    var next := 0;
    while next < |opens|
      invariant 0 <= next <= |opens|
      invariant places == OpenedAt(opens[..next]) && refused == Refusals(opens[..next])
    {
      assert opens[..next + 1][..next] == opens[..next];
      match opens[next] {
        case Opened => places := places + [next];
        case Refused(elapsed, code) => refused := refused + [Discarded(elapsed, Open(code))];
      }
      next := next + 1;
    }
    assert opens[..next] == opens;
  }

  /** The probes of a round, as they finish, up to the first that is answered. */
  method AwaitEcho(finishes: seq<Finish>) returns (answer: Option<Answer>, failed: seq<Discarded>)
    ensures answer == Echoed(finishes) && failed == BeforeEcho(finishes)
  {
    failed := [];
    var i := 0;
    while i < |finishes|
      invariant 0 <= i <= FirstEcho(finishes)
      invariant failed == Failures(finishes[..i])
    {
      var finish := finishes[i];
      assert finishes[..i + 1][..i] == finishes[..i];
      if finish.error.None? {
        return Some(Answer(finish.stream, finish.elapsed)), failed;
      }
      failed := failed + [Discarded(finish.elapsed, Probe(finish.error.value))];
      i := i + 1;
    }
    return None, failed;
  }

  /** Open the round's streams together and keep the first to answer. */
  method RunRound(probing: bool, script: Script) returns (answer: Option<Answer>, round: Round)
    ensures RoundResult(answer, round) == RoundOf(probing, script)
  {
    var places, discarded := OpenStreams(script.opens);
    if !probing {
      if places == [] {
        return None, Round(0, discarded, false);
      }
      match script.announceError {
        case None =>
          return Some(Answer(places[|places| - 1], script.announced)), Round(|places|, discarded, true);
        case Some(error) =>
          return None, Round(|places|, discarded + [Discarded(script.announced, Probe(error))], false);
      }
    }
    var failed;
    answer, failed := AwaitEcho(script.finishes);
    round := Round(|places|, discarded + failed, answer.Some?);
  }

  // ---------------------------------------------------------------- a round's books

  predicate Ordered(discarded: seq<Discarded>) {
    forall i, j :: 0 <= i < j < |discarded| ==> discarded[i].elapsed <= discarded[j].elapsed
  }

  /** Everything a round's counts promise about each other. */
  predicate Balanced(r: Round, size: nat) {
    && Attempted(r) == size
    && Unanswered(r) + (if r.answered then 1 else 0) <= r.streamsOpened
    && r.streamsOpened == Unanswered(r) + Cancelled(r) + (if r.answered then 1 else 0)
    && (!r.answered ==> Cancelled(r) == 0 && |r.discarded| == size)
    && Ordered(r.discarded)
  }

  lemma {:induction false} CountRefusedJoin(a: seq<Discarded>, b: seq<Discarded>)
    ensures CountRefused(a + b) == CountRefused(a) + CountRefused(b)
  {
    if b == [] {
      assert a + b == a;
    } else {
      var n := |b| - 1;
      assert (a + b)[..|a + b| - 1] == a + b[..n];
      CountRefusedJoin(a, b[..n]);
    }
  }

  lemma {:induction false} CountRefusedOne(d: Discarded)
    ensures CountRefused([d]) == if d.error.Open? then 1 else 0
  {
    assert [d][..0] == [];
  }

  lemma {:induction false} CountRefusedNone(ds: seq<Discarded>)
    requires forall i :: 0 <= i < |ds| ==> ds[i].error.Probe?
    ensures CountRefused(ds) == 0
  {
    if ds != [] {
      CountRefusedNone(ds[..|ds| - 1]);
    }
  }

  lemma {:induction false} RefusalsAreTheRest(opens: seq<OpenResult>)
    ensures |Refusals(opens)| + |OpenedAt(opens)| == |opens|
    ensures CountRefused(Refusals(opens)) == |Refusals(opens)|
  {
    if opens != [] {
      var n := |opens| - 1;
      RefusalsAreTheRest(opens[..n]);
      if opens[n].Refused? {
        var last := Discarded(opens[n].elapsed, Open(opens[n].code));
        CountRefusedOne(last);
        CountRefusedJoin(Refusals(opens[..n]), [last]);
        assert Refusals(opens) == Refusals(opens[..n]) + [last];
      }
    }
  }

  lemma {:induction false} RefusalsBefore(opens: seq<OpenResult>, t: nat)
    requires forall i :: 0 <= i < |opens| && opens[i].Refused? ==> opens[i].elapsed <= t
    ensures forall k :: 0 <= k < |Refusals(opens)| ==> Refusals(opens)[k].elapsed <= t
  {
    if opens != [] {
      RefusalsBefore(opens[..|opens| - 1], t);
    }
  }

  lemma {:induction false} RefusalsOrdered(opens: seq<OpenResult>)
    requires InOrder(opens)
    ensures Ordered(Refusals(opens))
  {
    if opens != [] {
      var n := |opens| - 1;
      RefusalsOrdered(opens[..n]);
      if opens[n].Refused? {
        RefusalsBefore(opens[..n], opens[n].elapsed);
      }
    }
  }

  lemma {:induction false} OrderedJoin(a: seq<Discarded>, b: seq<Discarded>)
    requires Ordered(a) && Ordered(b)
    requires forall i, j :: 0 <= i < |a| && 0 <= j < |b| ==> a[i].elapsed <= b[j].elapsed
    ensures Ordered(a + b)
  {
  }

  lemma {:induction false} FailuresOrdered(script: Script, size: nat)
    requires Plays(script, size, true)
    ensures Ordered(Refusals(script.opens) + Failures(script.finishes[..FirstEcho(script.finishes)]))
  {
    var failing := script.finishes[..FirstEcho(script.finishes)];
    var failed := Failures(failing);
    forall i | 0 <= i < |failed| ensures failed[i].elapsed == script.finishes[i].elapsed {
      FailureAt(failing, i);
    }
    RefusalsOrdered(script.opens);
    if failing != [] {
      RefusalsBefore(script.opens, script.finishes[0].elapsed);
    }
    OrderedJoin(Refusals(script.opens), failed);
  }

  lemma {:induction false} AllFinish(script: Script, size: nat)
    requires Plays(script, size, true)
    ensures |script.finishes| == |OpenedAt(script.opens)|
  {
    assert |multiset(Streams(script.finishes))| == |multiset(OpenedAt(script.opens))|;
  }

  lemma {:induction false} FailuresAreProbes(finishes: seq<Finish>)
    requires forall j :: 0 <= j < |finishes| ==> finishes[j].error.Some?
    ensures CountRefused(Failures(finishes)) == 0
  {
    forall i | 0 <= i < |finishes| ensures Failures(finishes)[i].error.Probe? {
      FailureAt(finishes, i);
    }
    CountRefusedNone(Failures(finishes));
  }

  /** Counts that add up make a balanced round. */
  lemma {:induction false} BooksBalance(live: nat, refused: seq<Discarded>, failed: seq<Discarded>, answered: bool)
    requires CountRefused(refused) == |refused| && CountRefused(failed) == 0
    requires |failed| + (if answered then 1 else 0) <= live
    requires !answered ==> |failed| == live
    requires Ordered(refused + failed)
    ensures Balanced(Round(live, refused + failed, answered), |refused| + live)
  {
    CountRefusedJoin(refused, failed);
  }

  /** Every round the code can return balances: nothing clips, and what went unanswered was all thrown away. */
  lemma {:induction false} RoundBalances(probing: bool, script: Script, size: nat)
    requires Plays(script, size, probing)
    requires probing || size <= 1
    ensures Balanced(RoundOf(probing, script).round, size)
    ensures RoundOf(probing, script).round.answered <==> RoundOf(probing, script).answer.Some?
  {
    var live, refused := |OpenedAt(script.opens)|, Refusals(script.opens);
    RefusalsAreTheRest(script.opens);
    if probing {
      var i := FirstEcho(script.finishes);
      AllFinish(script, size);
      FailuresOrdered(script, size);
      FailuresAreProbes(script.finishes[..i]);
      BooksBalance(live, refused, Failures(script.finishes[..i]), i < |script.finishes|);
    } else {
      UnprobedBalances(script, size);
    }
  }

  lemma {:induction false} UnprobedBalances(script: Script, size: nat)
    requires Plays(script, size, false) && size <= 1
    ensures Balanced(RoundOf(false, script).round, size)
  {
    var live := |OpenedAt(script.opens)|;
    RefusalsAreTheRest(script.opens);
    RefusalsOrdered(script.opens);
    if live == 0 || script.announceError.None? {
      assert Refusals(script.opens) + [] == Refusals(script.opens);
      BooksBalance(live, Refusals(script.opens), [], live > 0);
    } else {
      FailedAnnouncementBalances(script, size, Discarded(script.announced, Probe(script.announceError.value)));
    }
  }

  lemma {:induction false} FailedAnnouncementBalances(script: Script, size: nat, failed: Discarded)
    requires Plays(script, size, false) && size <= 1 && OpenedAt(script.opens) != []
    requires failed.error.Probe? && failed.elapsed == script.announced
    ensures Balanced(Round(|OpenedAt(script.opens)|, Refusals(script.opens) + [failed], false), size)
  {
    var refused := Refusals(script.opens);
    RefusalsAreTheRest(script.opens);
    RefusalsOrdered(script.opens);
    RefusalsBefore(script.opens, script.announced);
    OrderedJoin(refused, [failed]);
    CountRefusedOne(failed);
    BooksBalance(|OpenedAt(script.opens)|, refused, [failed], false);
  }

  /** The stream a probed round keeps is one it opened, its probe was answered, and no earlier one was. */
  lemma {:induction false} KeptStreamAnsweredFirst(script: Script, size: nat)
    requires Plays(script, size, true) && RoundOf(true, script).answer.Some?
    ensures var kept := RoundOf(true, script).answer.value;
            && kept.stream < size && script.opens[kept.stream].Opened?
            && Finish(kept.stream, kept.elapsed, None) in script.finishes
            && forall f :: f in script.finishes && f.error.None? ==> kept.elapsed <= f.elapsed
  {
    var i := FirstEcho(script.finishes);
    StreamAt(script.finishes, i);
    assert Streams(script.finishes)[i] in multiset(Streams(script.finishes));
    assert Streams(script.finishes)[i] in OpenedAt(script.opens);
    OpenedAtIsOpened(script.opens, script.finishes[i].stream);
    forall f | f in script.finishes && f.error.None? ensures script.finishes[i].elapsed <= f.elapsed {
      var j :| 0 <= j < |script.finishes| && script.finishes[j] == f;
      assert i <= j;
    }
  }

  /**
   Without a probe `dial` asks for one stream; asked for several, a round whose announcement fails would
   cancel all but one of those it opened.
  */
  lemma {:induction false} UnprobedRoundCancelsNothingIff(script: Script, size: nat)
    requires Plays(script, size, false) && !RoundOf(false, script).round.answered
    ensures Cancelled(RoundOf(false, script).round) == 0 <==> |OpenedAt(script.opens)| <= 1
  {
    RefusalsAreTheRest(script.opens);
    if script.announceError.Some? {
      var failed := [Discarded(script.announced, Probe(script.announceError.value))];
      CountRefusedOne(failed[0]);
      CountRefusedJoin(Refusals(script.opens), failed);
    }
  }

  // ---------------------------------------------------------------- the dial

  function Attempts(s: Settings): Positive { if s.probe.Some? then s.probe.value.attempts else 1 }

  function Concurrency(s: Settings): Positive { if s.probe.Some? then s.probe.value.concurrency else 1 }

  /** What is left of the budget once `i` rounds have been run. */
  function Left(i: nat, attempts: nat, concurrency: Positive): nat {
    if i == 0 then attempts else SaturatingSub(Left(i - 1, attempts, concurrency), concurrency)
  }

  function SizeOf(i: nat, attempts: nat, concurrency: Positive): nat {
    Min(concurrency, Left(i, attempts, concurrency))
  }

  /** How many rounds a budget buys when nothing answers. */
  function RoundCount(attempts: nat, concurrency: Positive): nat
    decreases attempts
  {
    if attempts == 0 then 0 else 1 + RoundCount(SaturatingSub(attempts, concurrency), concurrency)
  }

  /** A script for every round the budget buys; those after an answer are never played. */
  ghost predicate Obeys(scripts: seq<Script>, s: Settings) {
    && |scripts| == RoundCount(Attempts(s), Concurrency(s))
    && forall i :: 0 <= i < |scripts| ==> Plays(scripts[i], SizeOf(i, Attempts(s), Concurrency(s)), s.probe.Some?)
  }

  /** What each of those rounds comes to. */
  function Results(probing: bool, scripts: seq<Script>): (results: seq<RoundResult>)
    ensures |results| == |scripts|
  {
    if scripts == [] then []
    else Results(probing, scripts[..|scripts| - 1]) + [RoundOf(probing, scripts[|scripts| - 1])]
  }

  lemma {:induction false} ResultAt(probing: bool, scripts: seq<Script>, i: nat)
    requires i < |scripts|
    ensures Results(probing, scripts)[i] == RoundOf(probing, scripts[i])
  {
    if i < |scripts| - 1 {
      ResultAt(probing, scripts[..|scripts| - 1], i);
    }
  }

  /** The first round to be answered, or how many there are. */
  function FirstAnswered(results: seq<RoundResult>): (k: nat)
    ensures k <= |results|
    ensures forall j :: 0 <= j < k ==> results[j].answer.None?
    ensures k < |results| ==> results[k].answer.Some?
  {
    if results == [] || results[0].answer.Some? then 0 else 1 + FirstAnswered(results[1..])
  }

  function RoundsOf(results: seq<RoundResult>): (rounds: seq<Round>)
    ensures |rounds| == |results|
    ensures forall i :: 0 <= i < |rounds| ==> rounds[i] == results[i].round
  {
    if results == [] then [] else RoundsOf(results[..|results| - 1]) + [results[|results| - 1].round]
  }

  /** The whole dial: the rounds up to the first answer, or all of them. */
  function DialOf(results: seq<RoundResult>): DialResult {
    var k := FirstAnswered(results);
    if k < |results|
    then Dialled(results[k].answer.value, RoundsOf(results[..k + 1]))
    else GaveUp(RoundsOf(results))
  }

  function DialedOn(s: Settings, scripts: seq<Script>): DialResult { DialOf(Results(s.probe.Some?, scripts)) }

  /** What the i-th round comes to is as expected. */
  predicate Expects(results: seq<RoundResult>, probing: bool, scripts: seq<Script>, i: nat)
    requires i < |scripts| == |results|
  {
    results[i] == RoundOf(probing, scripts[i])
  }

  /** Run the i-th round. */
  method PlayRound(probing: bool, scripts: seq<Script>, i: nat, ghost results: seq<RoundResult>)
    returns (answer: Option<Answer>, round: Round)
    requires i < |scripts| == |results| && Expects(results, probing, scripts, i)
    ensures RoundResult(answer, round) == results[i]
  {
    answer, round := RunRound(probing, scripts[i]);
  }

  /** Open streams until one answers, or until the attempts run out. */
  method DialOut(settings: Settings, scripts: seq<Script>) returns (r: DialResult)
    requires |scripts| == RoundCount(Attempts(settings), Concurrency(settings))
    ensures r == DialedOn(settings, scripts)
  {
    var probing := settings.probe.Some?;
    ghost var results := Results(probing, scripts);
    forall i | 0 <= i < |scripts| ensures Expects(results, probing, scripts, i) {
      ResultAt(probing, scripts, i);
    }
    r := SpendBudget(probing, scripts, Attempts(settings), Concurrency(settings), results);
  }

  /** The loop of `DialOut`, given what each round will come to. */
  method SpendBudget(probing: bool, scripts: seq<Script>, attempts: Positive, concurrency: Positive,
        ghost results: seq<RoundResult>)
    returns (r: DialResult)
    requires |scripts| == RoundCount(attempts, concurrency) && |results| == |scripts|
    requires forall i :: 0 <= i < |scripts| ==> Expects(results, probing, scripts, i)
    ensures r == DialOf(results)
  {
    var rounds: seq<Round> := [];
    var remaining: nat := attempts;
    var i := 0;
    LeftUntilCount(0, attempts, concurrency);
    while remaining > 0
      invariant i <= |scripts| && (remaining > 0 <==> i < |scripts|)
      invariant remaining == Left(i, attempts, concurrency)
      invariant rounds == RoundsOf(results[..i]) && i <= FirstAnswered(results)
    {
      var size := Min(concurrency, remaining);
      remaining := remaining - size;
      var answer, round := PlayRound(probing, scripts, i, results);
      RoundsSnoc(results, i);
      rounds := rounds + [round];
      if answer.Some? {
        return Dialled(answer.value, rounds);
      }
      i := i + 1;
      LeftUntilCount(i, attempts, concurrency);
    }
    assert results[..i] == results;
    return GaveUp(rounds);
  }

  lemma {:induction false} RoundsSnoc(results: seq<RoundResult>, i: nat)
    requires i < |results|
    ensures RoundsOf(results[..i + 1]) == RoundsOf(results[..i]) + [results[i].round]
  {
    assert results[..i + 1][..i] == results[..i];
  }

  // ---------------------------------------------------------------- the budget

  /** In closed form: round i has what i full rounds leave, and the rounds are the budget divided, rounded up. */
  lemma {:induction false} BudgetInClosedForm(i: nat, attempts: nat, c: Positive)
    ensures Left(i, attempts, c) == SaturatingSub(attempts, i * c)
    ensures RoundCount(attempts, c) == (attempts + c - 1) / c
    ensures Left(i, attempts, c) > 0 <==> i < RoundCount(attempts, c)
  {
    LeftIs(i, attempts, c);
    RoundCountIs(attempts, c);
    LeftUntilCount(i, attempts, c);
  }

  lemma {:induction false} LeftIs(i: nat, attempts: nat, c: Positive)
    ensures Left(i, attempts, c) == SaturatingSub(attempts, i * c)
  {
    if i > 0 {
      LeftIs(i - 1, attempts, c);
      assert i * c == (i - 1) * c + c;
    }
  }

  lemma {:induction false} RoundCountIs(attempts: nat, c: Positive)
    ensures RoundCount(attempts, c) == (attempts + c - 1) / c
    decreases attempts
  {
    if attempts <= c {
      assert RoundCount(0, c) == 0;
      SmallQuotient(attempts, c);
    } else {
      RoundCountIs(attempts - c, c);
      OneMore(attempts - c + c - 1, c);
    }
  }

  lemma {:induction false} SmallQuotient(a: nat, c: Positive)
    requires a <= c
    ensures (a + c - 1) / c == if a == 0 then 0 else 1
  {
    if a > 0 {
      OneMore(a - 1, c);
    }
  }

  lemma {:induction false} OneMore(a: nat, c: Positive)
    ensures (a + c) / c == a / c + 1
  {
    var q, p := a / c, (a + c) / c;
    assert a == q * c + a % c && a + c == p * c + (a + c) % c;
    assert (p - q - 1) * c == a % c - (a + c) % c;
    NoMultipleBetween(p - q - 1, c);
  }

  lemma {:induction false} NoMultipleBetween(k: int, c: int)
    requires c > 0
    ensures -c < k * c < c ==> k == 0
  {
    if k >= 1 {
      assert k * c >= c;
    } else if k <= -1 {
      assert k * c <= -c;
    }
  }

  lemma {:induction false} LeftShift(i: nat, a: nat, c: Positive)
    ensures Left(i + 1, a, c) == Left(i, SaturatingSub(a, c), c)
  {
    if i > 0 {
      LeftShift(i - 1, a, c);
    }
  }

  lemma {:induction false} LeftUntilCount(i: nat, a: nat, c: Positive)
    ensures Left(i, a, c) > 0 <==> i < RoundCount(a, c)
  {
    if i > 0 {
      LeftShift(i - 1, a, c);
      LeftUntilCount(i - 1, SaturatingSub(a, c), c);
      if a == 0 {
        assert RoundCount(0, c) == 0;
      }
    }
  }

  /**
   The shape of everything `dial` returns: round i tries what is left of the budget up to the
   concurrency, only the last can have answered, and no answer means every round was run.
  */
  predicate Ladder(rounds: seq<Round>, attempts: nat, concurrency: Positive) {
    && (attempts > 0 ==> rounds != [])
    && |rounds| <= RoundCount(attempts, concurrency)
    && (forall i :: 0 <= i < |rounds| ==>
          0 < SizeOf(i, attempts, concurrency) && Balanced(rounds[i], SizeOf(i, attempts, concurrency)))
    && (forall i :: 0 <= i < |rounds| - 1 ==> !rounds[i].answered)
    && (NoAnswer(rounds) ==> |rounds| == RoundCount(attempts, concurrency))
  }

  predicate NoAnswer(rounds: seq<Round>) {
    forall i :: 0 <= i < |rounds| ==> !rounds[i].answered
  }

  /** Each round's opened streams are accounted for, and only the last can have answered. */
  predicate Booked(rounds: seq<Round>) {
    var answered := !NoAnswer(rounds);
    forall i :: 0 <= i < |rounds| ==> BookedAt(rounds, i, answered)
  }

  predicate BookedAt(rounds: seq<Round>, i: nat, answered: bool)
    requires i < |rounds|
  {
    && rounds[i].streamsOpened == Unanswered(rounds[i]) + Cancelled(rounds[i]) + (if rounds[i].answered then 1 else 0)
    && (rounds[i].answered <==> i == |rounds| - 1 && answered)
  }

  lemma {:induction false} LadderIsBooked(rounds: seq<Round>, attempts: nat, c: Positive)
    requires Ladder(rounds, attempts, c)
    ensures Booked(rounds)
  {
    var answered := !NoAnswer(rounds);
    forall i | 0 <= i < |rounds| ensures BookedAt(rounds, i, answered) {
      assert Balanced(rounds[i], SizeOf(i, attempts, c));
    }
  }

  /** Round i keeps its books, and says it answered exactly when it did. */
  ghost predicate Sound(results: seq<RoundResult>, s: Settings) {
    && |results| == RoundCount(Attempts(s), Concurrency(s))
    && forall i :: 0 <= i < |results| ==>
         && Balanced(results[i].round, SizeOf(i, Attempts(s), Concurrency(s)))
         && (results[i].round.answered <==> results[i].answer.Some?)
  }

  lemma {:induction false} EveryTransportIsSound(settings: Settings, scripts: seq<Script>)
    requires Obeys(scripts, settings)
    ensures Sound(Results(settings.probe.Some?, scripts), settings)
  {
    var probing, a, c := settings.probe.Some?, Attempts(settings), Concurrency(settings);
    forall i | 0 <= i < |scripts|
      ensures var r := Results(probing, scripts)[i];
              Balanced(r.round, SizeOf(i, a, c)) && (r.round.answered <==> r.answer.Some?)
    {
      ResultAt(probing, scripts, i);
      RoundBalances(probing, scripts[i], SizeOf(i, a, c));
    }
  }

  /** The rounds a dial reports are those it ran, and only the one it stopped at answered. */
  lemma {:induction false} ReportedRound(settings: Settings, results: seq<RoundResult>, i: nat)
    requires Sound(results, settings) && i < |DialOf(results).rounds|
    ensures i < |results| && DialOf(results).rounds[i] == results[i].round
    ensures 0 < SizeOf(i, Attempts(settings), Concurrency(settings))
    ensures Balanced(DialOf(results).rounds[i], SizeOf(i, Attempts(settings), Concurrency(settings)))
    ensures DialOf(results).rounds[i].answered <==> i == FirstAnswered(results)
  {
    LeftUntilCount(i, Attempts(settings), Concurrency(settings));
  }

  lemma {:induction false} SoundDialIsLadder(settings: Settings, results: seq<RoundResult>)
    requires Sound(results, settings)
    ensures var r := DialOf(results);
            && Ladder(r.rounds, Attempts(settings), Concurrency(settings))
            && (r.GaveUp? <==> NoAnswer(r.rounds))
  {
    var r := DialOf(results);
    var a, c, k := Attempts(settings), Concurrency(settings), FirstAnswered(results);
    LeftUntilCount(0, a, c);
    forall i | 0 <= i < |r.rounds|
      ensures 0 < SizeOf(i, a, c) && Balanced(r.rounds[i], SizeOf(i, a, c)) && (r.rounds[i].answered <==> i == k)
    {
      ReportedRound(settings, results, i);
    }
    assert |r.rounds| == if k < |results| then k + 1 else |results|;
    assert r.GaveUp? <==> k == |results|;
  }

  /** Every dial spends its budget exactly, whatever the transport does, and gives up exactly when nothing answered. */
  lemma {:induction false} DialSpendsBudget(settings: Settings, scripts: seq<Script>)
    requires Obeys(scripts, settings)
    ensures var r := DialedOn(settings, scripts);
            && Ladder(r.rounds, Attempts(settings), Concurrency(settings))
            && (r.GaveUp? <==> NoAnswer(r.rounds))
  {
    EveryTransportIsSound(settings, scripts);
    SoundDialIsLadder(settings, Results(settings.probe.Some?, scripts));
  }

  // ---------------------------------------------------------------- what the dial hands over and reports

  /** The probe at `i` failed with this, and no probe was answered before it. */
  predicate FailedFirst(finishes: seq<Finish>, i: nat, elapsed: nat, error: HandshakeError) {
    && i < |finishes| && finishes[i].elapsed == elapsed && finishes[i].error == Some(error)
    && forall j :: 0 <= j < i ==> finishes[j].error.Some?
  }

  /** The probe at `i` was answered, and none was before it. */
  predicate AnsweredFirst(finishes: seq<Finish>, i: nat, answer: Answer) {
    && i < |finishes| && finishes[i] == Finish(answer.stream, answer.elapsed, None)
    && forall j :: 0 <= j < i ==> finishes[j].error.Some?
  }

  /** The stream was opened in this round and its probe answered first; or it was opened and announced. */
  ghost predicate HandsOver(probing: bool, script: Script, answer: Answer) {
    && answer.stream < |script.opens| && script.opens[answer.stream].Opened?
    && (probing ==> exists i: nat :: AnsweredFirst(script.finishes, i, answer))
    && (probing ==> forall f :: f in script.finishes && f.error.None? ==> answer.elapsed <= f.elapsed)
    && (!probing ==> answer.elapsed == script.announced && script.announceError.None?)
  }

  /** A round's report names exactly what was thrown away, when and why, and says whether anything was kept. */
  ghost predicate Tells(probing: bool, script: Script, round: Round) {
    && round.streamsOpened == multiset(script.opens)[Opened]
    && (forall t, c :: Discarded(t, Open(c)) in round.discarded <==> Refused(t, c) in script.opens)
    && if probing then
         && (forall t, e :: Discarded(t, Probe(e)) in round.discarded
                            <==> exists i: nat :: FailedFirst(script.finishes, i, t, e))
         && (round.answered <==> exists f :: f in script.finishes && f.error.None?)
       else
         && (forall t, e :: Discarded(t, Probe(e)) in round.discarded
                            <==> Opened in script.opens && t == script.announced && script.announceError == Some(e))
         && (round.answered <==> Opened in script.opens && script.announceError.None?)
  }

  lemma {:induction false} RefusalsAre(opens: seq<OpenResult>)
    ensures |OpenedAt(opens)| == multiset(opens)[Opened]
    ensures OpenedAt(opens) != [] <==> Opened in opens
    ensures forall t, c :: Discarded(t, Open(c)) in Refusals(opens) <==> Refused(t, c) in opens
    ensures forall d :: d in Refusals(opens) ==> d.error.Open?
  {
    if opens != [] {
      var n := |opens| - 1;
      RefusalsAre(opens[..n]);
      assert opens == opens[..n] + [opens[n]];
    }
  }

  lemma {:induction false} FailuresBeforeEcho(finishes: seq<Finish>)
    ensures forall d :: d in BeforeEcho(finishes) ==> d.error.Probe?
    ensures forall t, e :: Discarded(t, Probe(e)) in BeforeEcho(finishes)
                           <==> exists i: nat :: FailedFirst(finishes, i, t, e)
  {
    var n := FirstEcho(finishes);
    var failed := finishes[..n];
    forall i | 0 <= i < n
      ensures Failures(failed)[i] == Discarded(finishes[i].elapsed, Probe(finishes[i].error.value))
    {
      FailureAt(failed, i);
    }
    forall t, e ensures Discarded(t, Probe(e)) in BeforeEcho(finishes)
                        <==> exists i: nat :: FailedFirst(finishes, i, t, e)
    {
      if Discarded(t, Probe(e)) in BeforeEcho(finishes) {
        var i: nat :| i < n && Failures(failed)[i] == Discarded(t, Probe(e));
        assert FailedFirst(finishes, i, t, e);
      }
      if exists i: nat :: FailedFirst(finishes, i, t, e) {
        var i: nat :| FailedFirst(finishes, i, t, e);
        assert i < n && Failures(failed)[i] == Discarded(t, Probe(e));
      }
    }
  }

  lemma {:induction false} EchoIffAnswered(finishes: seq<Finish>)
    ensures Echoed(finishes).Some? <==> exists f :: f in finishes && f.error.None?
  {
    var n := FirstEcho(finishes);
    if n < |finishes| {
      assert finishes[n] in finishes;
    }
  }

  lemma {:induction false} RoundTells(probing: bool, script: Script)
    ensures Tells(probing, script, RoundOf(probing, script).round)
  {
    RefusalsAre(script.opens);
    if probing {
      FailuresBeforeEcho(script.finishes);
      EchoIffAnswered(script.finishes);
    }
  }

  lemma {:induction false} RoundHandsOver(probing: bool, script: Script, size: nat)
    requires Plays(script, size, probing) && RoundOf(probing, script).answer.Some?
    ensures HandsOver(probing, script, RoundOf(probing, script).answer.value)
  {
    var answer := RoundOf(probing, script).answer.value;
    if probing {
      KeptStreamAnsweredFirst(script, size);
      assert AnsweredFirst(script.finishes, FirstEcho(script.finishes), answer);
    } else {
      OpenedAtIsOpened(script.opens, answer.stream);
    }
  }

  lemma {:induction false} ReportedAs(settings: Settings, scripts: seq<Script>, i: nat)
    requires i < |DialedOn(settings, scripts).rounds|
    ensures i < |scripts|
    ensures DialedOn(settings, scripts).rounds[i] == RoundOf(settings.probe.Some?, scripts[i]).round
  {
    ResultAt(settings.probe.Some?, scripts, i);
  }

  lemma {:induction false} DialTells(settings: Settings, scripts: seq<Script>, i: nat)
    requires i < |DialedOn(settings, scripts).rounds|
    ensures i < |scripts| && Tells(settings.probe.Some?, scripts[i], DialedOn(settings, scripts).rounds[i])
  {
    ReportedAs(settings, scripts, i);
    RoundTells(settings.probe.Some?, scripts[i]);
  }

  lemma {:induction false} DialEndsAt(settings: Settings, scripts: seq<Script>)
    requires DialedOn(settings, scripts).Dialled?
    ensures var r, probing := DialedOn(settings, scripts), settings.probe.Some?;
            && 0 < |r.rounds| <= |scripts|
            && RoundOf(probing, scripts[|r.rounds| - 1]).answer == Some(r.answer)
  {
    var k := FirstAnswered(Results(settings.probe.Some?, scripts));
    ResultAt(settings.probe.Some?, scripts, k);
  }

  /**
   Of every dial, on every transport: the stream it hands over is the one the last round it ran kept,
   and each of its rounds is reported as what its transport did.
  */
  lemma {:induction false} DialHandsOver(settings: Settings, scripts: seq<Script>)
    requires Obeys(scripts, settings)
    ensures var r := DialedOn(settings, scripts);
            && |r.rounds| <= |scripts|
            && (forall i :: 0 <= i < |r.rounds| ==> Tells(settings.probe.Some?, scripts[i], r.rounds[i]))
            && (r.Dialled? ==> r.rounds != [] && HandsOver(settings.probe.Some?, scripts[|r.rounds| - 1], r.answer))
  {
    var r, probing := DialedOn(settings, scripts), settings.probe.Some?;
    forall i | 0 <= i < |r.rounds| ensures i < |scripts| && Tells(probing, scripts[i], r.rounds[i]) {
      DialTells(settings, scripts, i);
    }
    if r.Dialled? {
      var k := |r.rounds| - 1;
      DialEndsAt(settings, scripts);
      RoundHandsOver(probing, scripts[k], SizeOf(k, Attempts(settings), Concurrency(settings)));
    }
  }

  /** The opening round came to nothing exactly when the dial gave up or went on to another. */
  lemma {:induction false} FirstRoundFailedIff(rounds: seq<Round>, a: nat, c: Positive)
    requires a > 0 && Ladder(rounds, a, c)
    ensures FirstRoundFailed(rounds) <==> NoAnswer(rounds) || |rounds| > 1
  {
  }

  // ---------------------------------------------------------------- giving up

  function TotalAttempted(rounds: seq<Round>): nat {
    if rounds == [] then 0 else TotalAttempted(rounds[..|rounds| - 1]) + Attempted(rounds[|rounds| - 1])
  }

  function TotalOpened(rounds: seq<Round>): nat {
    if rounds == [] then 0 else TotalOpened(rounds[..|rounds| - 1]) + rounds[|rounds| - 1].streamsOpened
  }

  function TotalCancelled(rounds: seq<Round>): nat {
    if rounds == [] then 0 else TotalCancelled(rounds[..|rounds| - 1]) + Cancelled(rounds[|rounds| - 1])
  }

  /** The opening round came to nothing. */
  predicate FirstRoundFailed(rounds: seq<Round>) { rounds != [] && !rounds[0].answered }

  /** Whatever the rounds so far came to, what they tried and what is left make the budget. */
  lemma {:induction false} TriedPlusLeft(rounds: seq<Round>, k: nat, a: nat, c: Positive)
    requires k <= |rounds|
    requires forall i :: 0 <= i < k ==> Attempted(rounds[i]) == SizeOf(i, a, c)
    ensures TotalAttempted(rounds[..k]) + Left(k, a, c) == a
  {
    if k > 0 {
      TriedPlusLeft(rounds, k - 1, a, c);
      assert rounds[..k][..k - 1] == rounds[..k - 1];
    } else {
      assert rounds[..0] == [];
    }
  }

  /** Giving up means exactly the whole budget was tried. */
  lemma {:induction false} GivingUpSpendsEverything(rounds: seq<Round>, a: nat, c: Positive)
    requires Ladder(rounds, a, c) && NoAnswer(rounds)
    ensures TotalAttempted(rounds) == a
  {
    forall i | 0 <= i < |rounds| ensures Attempted(rounds[i]) == SizeOf(i, a, c) {
      assert Balanced(rounds[i], SizeOf(i, a, c));
    }
    TriedPlusLeft(rounds, |rounds|, a, c);
    LeftUntilCount(|rounds|, a, c);
    assert rounds[..|rounds|] == rounds;
  }

  function LastError(rounds: seq<Round>): Option<DialError> {
    if rounds == [] then None
    else
      var discarded := rounds[|rounds| - 1].discarded;
      if discarded == [] then None else Some(discarded[|discarded| - 1].error)
  }

  /** The last to fail in a round with nothing kept: the last probe, or the last open when none came to a probe. */
  ghost predicate FailedLast(probing: bool, script: Script, error: DialError) {
    var opens, finishes := script.opens, script.finishes;
    if Opened !in opens then opens != [] && opens[|opens| - 1].Refused? && error == Open(opens[|opens| - 1].code)
    else if probing then finishes != [] && Some(error) == match finishes[|finishes| - 1].error
                                                           case Some(e) => Some(Probe(e))
                                                           case None => None
    else script.announceError.Some? && error == Probe(script.announceError.value)
  }

  lemma {:induction false} LastOfProbed(script: Script, size: nat)
    requires Plays(script, size, true) && size > 0 && RoundOf(true, script).answer.None?
    ensures var discarded := RoundOf(true, script).round.discarded;
            discarded != [] && FailedLast(true, script, discarded[|discarded| - 1].error)
  {
    var finishes, opens := script.finishes, script.opens;
    RefusalsAre(opens);
    RefusalsAreTheRest(opens);
    AllFinish(script, size);
    assert finishes[..|finishes|] == finishes;
    if finishes == [] {
      assert Refusals(opens) + Failures(finishes) == Refusals(opens);
    } else {
      FailureAt(finishes, |finishes| - 1);
    }
  }

  lemma {:induction false} LastOfUnprobed(script: Script)
    requires |script.opens| == 1 && RoundOf(false, script).answer.None?
    ensures var discarded := RoundOf(false, script).round.discarded;
            discarded != [] && FailedLast(false, script, discarded[|discarded| - 1].error)
  {
    var opens := script.opens;
    assert opens == [opens[0]] && opens[..0] == [];
    RefusalsAre(opens);
  }

  lemma {:induction false} LastRoundOf(settings: Settings, scripts: seq<Script>)
    requires Obeys(scripts, settings) && DialedOn(settings, scripts).GaveUp?
    ensures var probing, rounds := settings.probe.Some?, DialedOn(settings, scripts).rounds;
            && scripts != [] && |rounds| == |scripts|
            && rounds[|rounds| - 1] == RoundOf(probing, scripts[|scripts| - 1]).round
            && RoundOf(probing, scripts[|scripts| - 1]).answer.None?
  {
    LeftUntilCount(0, Attempts(settings), Concurrency(settings));
    ResultAt(settings.probe.Some?, scripts, |scripts| - 1);
  }

  lemma {:induction false} LastErrorOf(probing: bool, script: Script, size: nat, rounds: seq<Round>)
    requires Plays(script, size, probing) && size > 0 && (probing || size == 1)
    requires RoundOf(probing, script).answer.None?
    requires rounds != [] && rounds[|rounds| - 1] == RoundOf(probing, script).round
    ensures LastError(rounds).Some? && FailedLast(probing, script, LastError(rounds).value)
  {
    if probing {
      LastOfProbed(script, size);
    } else {
      LastOfUnprobed(script);
    }
  }

  /** A dial that gives up reports the very last failure of its last round. */
  lemma {:induction false} LastErrorIsLast(settings: Settings, scripts: seq<Script>)
    requires Obeys(scripts, settings) && DialedOn(settings, scripts).GaveUp?
    ensures scripts != [] && LastError(DialedOn(settings, scripts).rounds).Some?
    ensures FailedLast(settings.probe.Some?, scripts[|scripts| - 1],
                       LastError(DialedOn(settings, scripts).rounds).value)
  {
    LastRoundOf(settings, scripts);
    var last, size := |scripts| - 1, SizeOf(|scripts| - 1, Attempts(settings), Concurrency(settings));
    LeftUntilCount(last, Attempts(settings), Concurrency(settings));
    LastErrorOf(settings.probe.Some?, scripts[last], size, DialedOn(settings, scripts).rounds);
  }

  predicate NothingOpened(rounds: seq<Round>) {
    forall i :: 0 <= i < |rounds| ==> rounds[i].streamsOpened == 0
  }

  /** Every stream of every round was thrown away because its open was refused. */
  predicate OnlyRefusals(rounds: seq<Round>) {
    forall i, j :: 0 <= i < |rounds| && 0 <= j < |rounds[i].discarded| ==> rounds[i].discarded[j].error.Open?
  }

  lemma {:induction false} AllRefusedIff(ds: seq<Discarded>)
    ensures CountRefused(ds) == |ds| <==> forall j :: 0 <= j < |ds| ==> ds[j].error.Open?
  {
    if ds != [] {
      AllRefusedIff(ds[..|ds| - 1]);
    }
  }

  /**
   On every dial that gives up there is a last error to report, and "nothing opened" is said exactly
   when every stream that was thrown away had been refused.
  */
  lemma {:induction false} GiveUpClassifiedExactly(rounds: seq<Round>, a: nat, c: Positive)
    requires a > 0 && Ladder(rounds, a, c) && NoAnswer(rounds)
    ensures LastError(rounds).Some?
    ensures NothingOpened(rounds) <==> OnlyRefusals(rounds)
  {
    forall i | 0 <= i < |rounds|
      ensures rounds[i].streamsOpened == 0 <==>
              forall j :: 0 <= j < |rounds[i].discarded| ==> rounds[i].discarded[j].error.Open?
    {
      assert Balanced(rounds[i], SizeOf(i, a, c));
      AllRefusedIff(rounds[i].discarded);
    }
    var last := |rounds| - 1;
    assert 0 < SizeOf(last, a, c) == |rounds[last].discarded|;
  }
}
