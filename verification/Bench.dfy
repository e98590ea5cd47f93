/** The benchmark: the rotation of configurations, the trial loop, and the tables its report is made of. */
module Bench {
  import opened Wrappers
  import opened Dial

  const REFUSAL_STREAK_LIMIT: nat := 5

  // ---------------------------------------------------------------- the configurations under test

  datatype Arm = Arm(concurrency: Positive, gap: Option<nat>)

  /** Without the gap axis there is one arm a round size. */
  function Gaps(given: Option<seq<nat>>): seq<Option<nat>> {
    match given
    case Some(gaps) => Somes(gaps)
    case None => [None]
  }

  function Somes(gaps: seq<nat>): seq<Option<nat>> {
    if gaps == [] then [] else Somes(gaps[..|gaps| - 1]) + [Some(gaps[|gaps| - 1])]
  }

  function WithGaps(concurrency: Positive, gaps: seq<Option<nat>>): seq<Arm> {
    if gaps == [] then [] else WithGaps(concurrency, gaps[..|gaps| - 1]) + [Arm(concurrency, gaps[|gaps| - 1])]
  }

  /** Every configuration, as the cross product of the two axes. */
  function Arms(concurrencies: seq<Positive>, gaps: seq<Option<nat>>): seq<Arm> {
    if concurrencies == [] then []
    else Arms(concurrencies[..|concurrencies| - 1], gaps) + WithGaps(concurrencies[|concurrencies| - 1], gaps)
  }

  predicate NoRepeats<T(==)>(s: seq<T>) { forall i, j :: 0 <= i < j < |s| ==> s[i] != s[j] }

  lemma {:induction false} SomesKeepRepeats(gaps: seq<nat>)
    ensures |Somes(gaps)| == |gaps|
    ensures forall i :: 0 <= i < |gaps| ==> Somes(gaps)[i] == Some(gaps[i])
    ensures NoRepeats(Somes(gaps)) <==> NoRepeats(gaps)
  {
    if gaps != [] {
      SomesKeepRepeats(gaps[..|gaps| - 1]);
    }
  }

  lemma {:induction false} WithGapsAt(c: Positive, gaps: seq<Option<nat>>)
    ensures |WithGaps(c, gaps)| == |gaps|
    ensures forall j :: 0 <= j < |gaps| ==> WithGaps(c, gaps)[j] == Arm(c, gaps[j])
  {
    if gaps != [] {
      WithGapsAt(c, gaps[..|gaps| - 1]);
    }
  }

  lemma {:induction false} InRow(c: Positive, gaps: seq<Option<nat>>, arm: Arm)
    ensures arm in WithGaps(c, gaps) <==> arm.concurrency == c && arm.gap in gaps
  {
    WithGapsAt(c, gaps);
    if arm.concurrency == c && arm.gap in gaps {
      var j :| 0 <= j < |gaps| && gaps[j] == arm.gap;
      assert WithGaps(c, gaps)[j] == arm;
    }
  }

  lemma {:induction false} InArms(concurrencies: seq<Positive>, gaps: seq<Option<nat>>, arm: Arm)
    ensures arm in Arms(concurrencies, gaps) <==> arm.concurrency in concurrencies && arm.gap in gaps
  {
    if concurrencies != [] {
      var n := |concurrencies| - 1;
      InArms(concurrencies[..n], gaps, arm);
      InRow(concurrencies[n], gaps, arm);
      assert concurrencies == concurrencies[..n] + [concurrencies[n]];
    }
  }

  /** They come round by size, and within a size by gap, in the order given. */
  lemma {:induction false} ArmAt(concurrencies: seq<Positive>, gaps: seq<Option<nat>>, i: nat, j: nat)
    requires i < |concurrencies| && j < |gaps|
    ensures Times(i, |gaps|) + j < |Arms(concurrencies, gaps)|
    ensures Arms(concurrencies, gaps)[Times(i, |gaps|) + j] == Arm(concurrencies[i], gaps[j])
  {
    var n := |concurrencies| - 1;
    if i < n {
      ArmAt(concurrencies[..n], gaps, i, j);
    } else {
      ArmInLastRow(concurrencies, gaps, j);
    }
  }

  lemma {:induction false} ArmInLastRow(concurrencies: seq<Positive>, gaps: seq<Option<nat>>, j: nat)
    requires concurrencies != [] && j < |gaps|
    ensures var n := |concurrencies| - 1;
            && Times(n, |gaps|) + j < |Arms(concurrencies, gaps)|
            && Arms(concurrencies, gaps)[Times(n, |gaps|) + j] == Arm(concurrencies[n], gaps[j])
  {
    var n := |concurrencies| - 1;
    ArmsAreMany(concurrencies[..n], gaps);
    WithGapsAt(concurrencies[n], gaps);
    Behind(Arms(concurrencies[..n], gaps), WithGaps(concurrencies[n], gaps), j);
  }

  lemma {:induction false} Behind(a: seq<Arm>, b: seq<Arm>, j: nat)
    requires j < |b|
    ensures (a + b)[|a| + j] == b[j]
  {
  }

  lemma {:induction false} ArmsAreMany(concurrencies: seq<Positive>, gaps: seq<Option<nat>>)
    ensures |Arms(concurrencies, gaps)| == Times(|concurrencies|, |gaps|)
  {
    if concurrencies != [] {
      var n := |concurrencies| - 1;
      ArmsAreMany(concurrencies[..n], gaps);
      WithGapsAt(concurrencies[n], gaps);
    }
  }

  /** The configurations of a command line: every size with every gap, or with none when the gap is not under test. */
  lemma {:induction false} InCommandLine(concurrencies: seq<Positive>, given: Option<seq<nat>>, arm: Arm)
    ensures arm in Arms(concurrencies, Gaps(given)) <==>
              && arm.concurrency in concurrencies
              && match given
                 case None => arm.gap.None?
                 case Some(gaps) => arm.gap.Some? && arm.gap.value in gaps
  {
    InArms(concurrencies, Gaps(given), arm);
    if given.Some? {
      SomesKeepRepeats(given.value);
      if arm.gap.Some? && arm.gap.value in given.value {
        var i :| 0 <= i < |given.value| && given.value[i] == arm.gap.value;
        assert Somes(given.value)[i] == arm.gap;
      }
    }
  }

  predicate Disjoint<T(==)>(a: seq<T>, b: seq<T>) { forall i, j :: 0 <= i < |a| && 0 <= j < |b| ==> a[i] != b[j] }

  lemma {:induction false} JoinRepeats<T>(a: seq<T>, b: seq<T>)
    ensures NoRepeats(a + b) <==> NoRepeats(a) && NoRepeats(b) && Disjoint(a, b)
  {
    if NoRepeats(a + b) {
      forall i, j | 0 <= i < j < |a| ensures a[i] != a[j] { assert (a + b)[i] != (a + b)[j]; }
      forall i, j | 0 <= i < j < |b| ensures b[i] != b[j] { assert (a + b)[|a| + i] != (a + b)[|a| + j]; }
      forall i, j | 0 <= i < |a| && 0 <= j < |b| ensures a[i] != b[j] { assert (a + b)[i] != (a + b)[|a| + j]; }
    }
    if NoRepeats(a) && NoRepeats(b) && Disjoint(a, b) {
      forall i, j | 0 <= i < j < |a + b| ensures (a + b)[i] != (a + b)[j] {
        assert j >= |a| && i < |a| ==> a[i] != b[j - |a|];
      }
    }
  }

  lemma {:induction false} WithGapsRepeats(c: Positive, gaps: seq<Option<nat>>)
    ensures NoRepeats(WithGaps(c, gaps)) <==> NoRepeats(gaps)
  {
    WithGapsAt(c, gaps);
    if NoRepeats(WithGaps(c, gaps)) {
      forall i, j | 0 <= i < j < |gaps| ensures gaps[i] != gaps[j] {
        assert WithGaps(c, gaps)[i] != WithGaps(c, gaps)[j];
      }
    }
  }

  lemma {:induction false} LastIsFresh(s: seq<Positive>)
    requires s != []
    ensures NoRepeats(s) <==> NoRepeats(s[..|s| - 1]) && s[|s| - 1] !in s[..|s| - 1]
  {
    var n := |s| - 1;
    assert s == s[..n] + [s[n]];
    JoinRepeats(s[..n], [s[n]]);
    assert Disjoint(s[..n], [s[n]]) <==> s[n] !in s[..n] by {
      if Disjoint(s[..n], [s[n]]) {
        assert forall i :: 0 <= i < n ==> s[..n][i] != [s[n]][0];
      }
    }
  }

  lemma {:induction false} RowsAreDisjoint(concurrencies: seq<Positive>, c: Positive, gaps: seq<Option<nat>>)
    requires gaps != []
    ensures Disjoint(Arms(concurrencies, gaps), WithGaps(c, gaps)) <==> c !in concurrencies
  {
    var arms, row := Arms(concurrencies, gaps), WithGaps(c, gaps);
    WithGapsAt(c, gaps);
    if c in concurrencies {
      InArms(concurrencies, gaps, Arm(c, gaps[0]));
      var i :| 0 <= i < |arms| && arms[i] == row[0];
    } else {
      forall i, j | 0 <= i < |arms| && 0 <= j < |row| ensures arms[i] != row[j] {
        InArms(concurrencies, gaps, arms[i]);
      }
    }
  }

  /** No configuration comes up twice exactly when neither axis repeats a value. */
  lemma {:induction false} ArmsRepeatIff(concurrencies: seq<Positive>, gaps: seq<Option<nat>>)
    requires gaps != [] && concurrencies != []
    ensures NoRepeats(Arms(concurrencies, gaps)) <==> NoRepeats(concurrencies) && NoRepeats(gaps)
  {
    var n := |concurrencies| - 1;
    var c, before := concurrencies[n], concurrencies[..n];
    JoinRepeats(Arms(before, gaps), WithGaps(c, gaps));
    WithGapsRepeats(c, gaps);
    LastIsFresh(concurrencies);
    RowsAreDisjoint(before, c, gaps);
    if n > 0 {
      ArmsRepeatIff(before, gaps);
    }
  }

  lemma {:induction false} CommandLineRepeatsIff(concurrencies: seq<Positive>, given: Option<seq<nat>>)
    requires concurrencies != [] && (given.Some? ==> given.value != [])
    ensures NoRepeats(Arms(concurrencies, Gaps(given)))
            <==> NoRepeats(concurrencies) && (given.Some? ==> NoRepeats(given.value))
  {
    if given.Some? {
      SomesKeepRepeats(given.value);
    }
    ArmsRepeatIff(concurrencies, Gaps(given));
  }

  // ---------------------------------------------------------------- trials

  datatype Trial = Trial(arm: Arm, rounds: seq<Round>, answeringRound: Option<nat>)

  predicate Answered(t: Trial) { t.answeringRound.Some? }

  function TotalRefused(rounds: seq<Round>): nat {
    if rounds == [] then 0 else TotalRefused(rounds[..|rounds| - 1]) + CountRefused(rounds[|rounds| - 1].discarded)
  }

  function TotalUnanswered(rounds: seq<Round>): nat {
    if rounds == [] then 0 else TotalUnanswered(rounds[..|rounds| - 1]) + Unanswered(rounds[|rounds| - 1])
  }

  /** The subtraction the code makes to count refusals. */
  function RefusedOpens(t: Trial): int { TotalAttempted(t.rounds) - TotalOpened(t.rounds) }

  function SettingsOf(arm: Arm, attempts: Positive): Settings { Settings(Some(Budget(attempts, arm.concurrency))) }

  function TrialOf(arm: Arm, result: DialResult): Trial {
    match result
    case Dialled(answer, rounds) => Trial(arm, rounds, Some(answer.elapsed))
    case GaveUp(rounds) => Trial(arm, rounds, None)
  }

  /** A trial as the dialler leaves it. */
  predicate Genuine(t: Trial, attempts: Positive) {
    Ladder(t.rounds, attempts, t.arm.concurrency) && (Answered(t) <==> !NoAnswer(t.rounds))
  }

  lemma {:induction false} EveryTrialIsGenuine(arm: Arm, attempts: Positive, scripts: seq<Script>)
    requires Obeys(scripts, SettingsOf(arm, attempts))
    ensures Genuine(TrialOf(arm, DialOf(Results(true, scripts))), attempts)
  {
    DialSpendsBudget(SettingsOf(arm, attempts), scripts);
  }

  /** A trial is of its arm, has the rounds the transport played, and its answer took what the kept probe did. */
  lemma {:induction false} EveryTrialTellsItsDial(arm: Arm, attempts: Positive, scripts: seq<Script>)
    requires Obeys(scripts, SettingsOf(arm, attempts))
    ensures var t := TrialOf(arm, DialOf(Results(true, scripts)));
            && t.arm == arm && |t.rounds| <= |scripts|
            && (forall i :: 0 <= i < |t.rounds| ==> Tells(true, scripts[i], t.rounds[i]))
            && (Answered(t) ==> t.rounds != [] && AnsweredAfter(scripts[|t.rounds| - 1], t.answeringRound.value))
  {
    var r := DialedOn(SettingsOf(arm, attempts), scripts);
    DialHandsOver(SettingsOf(arm, attempts), scripts);
    if r.Dialled? {
      KeptProbeTook(scripts[|r.rounds| - 1], r.answer);
    }
  }

  /** The stream the round kept was answered after this long. */
  ghost predicate AnsweredAfter(script: Script, elapsed: nat) {
    exists stream :: HandsOver(true, script, Answer(stream, elapsed))
  }

  lemma {:induction false} KeptProbeTook(script: Script, answer: Answer)
    requires HandsOver(true, script, answer)
    ensures AnsweredAfter(script, answer.elapsed)
  {
    assert HandsOver(true, script, Answer(answer.stream, answer.elapsed));
  }

  lemma {:induction false} AttemptsSplit(rounds: seq<Round>)
    ensures TotalAttempted(rounds) == TotalOpened(rounds) + TotalRefused(rounds)
  {
    if rounds != [] {
      AttemptsSplit(rounds[..|rounds| - 1]);
    }
  }

  lemma {:induction false} TotalsGrow(rounds: seq<Round>, k: nat)
    requires 0 < k <= |rounds|
    ensures TotalOpened(rounds[..k]) == TotalOpened(rounds[..k - 1]) + rounds[k - 1].streamsOpened
    ensures TotalUnanswered(rounds[..k]) == TotalUnanswered(rounds[..k - 1]) + Unanswered(rounds[k - 1])
    ensures TotalCancelled(rounds[..k]) == TotalCancelled(rounds[..k - 1]) + Cancelled(rounds[k - 1])
  {
    assert rounds[..k][..k - 1] == rounds[..k - 1];
  }

  lemma {:induction false} OpensSplit(rounds: seq<Round>, k: nat)
    requires k <= |rounds| && Booked(rounds)
    ensures TotalOpened(rounds[..k]) == TotalUnanswered(rounds[..k]) + TotalCancelled(rounds[..k])
                                     + if k == |rounds| && !NoAnswer(rounds) then 1 else 0
  {
    if k > 0 {
      OpensSplit(rounds, k - 1);
      TotalsGrow(rounds, k);
      assert BookedAt(rounds, k - 1, !NoAnswer(rounds));
    }
  }

  /**
   The counts a trial is reported with: refusals never come out negative and are the refusals there
   were, every opened stream failed, was let go of or is the one that answered, and a trial that came
   to nothing opened and was refused exactly its budget; its first round failed if it came to nothing or
   to a second round, and only then.
  */
  lemma {:induction false} TrialAddsUp(t: Trial, attempts: Positive)
    requires Genuine(t, attempts)
    ensures RefusedOpens(t) == TotalRefused(t.rounds)
    ensures TotalOpened(t.rounds) == TotalUnanswered(t.rounds) + TotalCancelled(t.rounds) + if Answered(t) then 1 else 0
    ensures !Answered(t) ==> TotalOpened(t.rounds) + RefusedOpens(t) == attempts
    ensures FirstRoundFailed(t.rounds) <==> !Answered(t) || |t.rounds| > 1
  {
    var c := t.arm.concurrency;
    AttemptsSplit(t.rounds);
    LadderIsBooked(t.rounds, attempts, c);
    OpensSplit(t.rounds, |t.rounds|);
    FirstRoundFailedIff(t.rounds, attempts, c);
    assert t.rounds[..|t.rounds|] == t.rounds;
    if !Answered(t) {
      GivingUpSpendsEverything(t.rounds, attempts, c);
    }
  }

  // ---------------------------------------------------------------- the trial loop

  /** Whose turn the n-th trial is, going round the arms. */
  function Turn(arms: seq<Arm>, n: nat): Arm
    requires arms != []
    decreases n
  {
    if n < |arms| then arms[n] else Turn(arms, n - |arms|)
  }

  lemma {:induction false} TurnIsRemainder(arms: seq<Arm>, n: nat)
    requires arms != []
    ensures 0 <= n % |arms| < |arms| && n % |arms| <= n && Turn(arms, n) == arms[n % |arms|]
    decreases n
  {
    var k := |arms|;
    if n < k {
      Quotient(0, n, k);
    } else {
      TurnIsRemainder(arms, n - k);
      var q, r := (n - k) / k, (n - k) % k;
      assert n == (q + 1) * k + r;
      Quotient(q + 1, r, k);
    }
  }

  lemma {:induction false} Quotient(q: nat, r: nat, k: nat)
    requires r < k
    ensures (q * k + r) / k == q && (q * k + r) % k == r
  {
    var n := q * k + r;
    assert n == (n / k) * k + n % k;
    assert (n / k - q) * k == r - n % k;
    NoMultipleBetween(n / k - q, k);
  }

  /** The last five trials opened nothing at all. */
  predicate ClientIsGone(trials: seq<Trial>) {
    && |trials| >= 5
    && forall i :: |trials| - 5 <= i < |trials| ==> TotalOpened(trials[i].rounds) == 0
  }

  function RefusingStreak(trials: seq<Trial>): nat {
    if trials == [] || TotalOpened(trials[|trials| - 1].rounds) > 0 then 0
    else 1 + RefusingStreak(trials[..|trials| - 1])
  }

  lemma {:induction false} StreakIsARun(trials: seq<Trial>)
    ensures var n := RefusingStreak(trials);
            && n <= |trials|
            && (forall i :: |trials| - n <= i < |trials| ==> TotalOpened(trials[i].rounds) == 0)
            && (n < |trials| ==> TotalOpened(trials[|trials| - n - 1].rounds) > 0)
  {
    if trials != [] {
      StreakIsARun(trials[..|trials| - 1]);
    }
  }

  lemma {:induction false} StreakTellsWhenGone(trials: seq<Trial>)
    ensures RefusingStreak(trials) >= REFUSAL_STREAK_LIMIT <==> ClientIsGone(trials)
  {
    StreakIsARun(trials);
  }

  /** The streak had not come to the limit before the last trial. */
  predicate Unbroken(trials: seq<Trial>) {
    trials == [] || (Unbroken(trials[..|trials| - 1]) && RefusingStreak(trials[..|trials| - 1]) < REFUSAL_STREAK_LIMIT)
  }

  lemma {:induction false} UnbrokenMeansStillThere(trials: seq<Trial>, m: nat)
    requires Unbroken(trials) && m < |trials|
    ensures !ClientIsGone(trials[..m])
  {
    var n := |trials| - 1;
    if m < n {
      UnbrokenMeansStillThere(trials[..n], m);
      assert trials[..n][..m] == trials[..m];
    } else {
      StreakTellsWhenGone(trials[..n]);
    }
  }

  lemma {:induction false} OneMoreTrial(expected: seq<Trial>, n: nat)
    requires n < |expected| && Unbroken(expected[..n]) && RefusingStreak(expected[..n]) < REFUSAL_STREAK_LIMIT
    ensures expected[..n + 1] == expected[..n] + [expected[n]] && Unbroken(expected[..n + 1])
    ensures RefusingStreak(expected[..n + 1])
         == if TotalOpened(expected[n].rounds) == 0 then RefusingStreak(expected[..n]) + 1 else 0
  {
    assert expected[..n + 1][..n] == expected[..n];
  }

  /** The trials of a run that is not cut short, one a turn. */
  function TrialsOf(arms: seq<Arm>, world: seq<seq<Script>>): (trials: seq<Trial>)
    requires arms != []
    ensures |trials| == |world|
  {
    if world == [] then []
    else
      var n := |world| - 1;
      TrialsOf(arms, world[..n]) + [TrialOf(Turn(arms, n), DialOf(Results(true, world[n])))]
  }

  lemma {:induction false} TrialAt(arms: seq<Arm>, world: seq<seq<Script>>, n: nat)
    requires arms != [] && n < |world|
    ensures TrialsOf(arms, world)[n] == TrialOf(Turn(arms, n), DialOf(Results(true, world[n])))
  {
    if n < |world| - 1 {
      TrialAt(arms, world[..|world| - 1], n);
    }
  }

  /** The world holds a script for every round a trial could run. */
  ghost predicate Enough(arms: seq<Arm>, attempts: Positive, world: seq<seq<Script>>)
    requires arms != []
  {
    forall n :: 0 <= n < |world| ==> |world[n]| == RoundCount(attempts, Turn(arms, n).concurrency)
  }

  /** What the n-th trial comes to is as expected. */
  predicate Expects(expected: seq<Trial>, arms: seq<Arm>, world: seq<seq<Script>>, n: nat)
    requires arms != [] && n < |world| == |expected|
  {
    expected[n] == TrialOf(Turn(arms, n), DialOf(Results(true, world[n])))
  }

  method RunTrial(arms: seq<Arm>, attempts: Positive, world: seq<seq<Script>>, n: nat, ghost expected: seq<Trial>)
    returns (t: Trial)
    requires arms != [] && n < |world| == |expected| && Enough(arms, attempts, world)
    requires Expects(expected, arms, world, n)
    ensures t == expected[n]
  {
    TurnIsRemainder(arms, n);
    var arm := arms[n % |arms|];
    var result := DialOut(SettingsOf(arm, attempts), world[n]);
    match result {
      case Dialled(answer, rounds) => t := Trial(arm, rounds, Some(answer.elapsed));
      case GaveUp(rounds) => t := Trial(arm, rounds, None);
    }
  }

  method CountOpened(t: Trial) returns (total: nat)
    ensures total == TotalOpened(t.rounds)
  {
    total := 0;
    for i := 0 to |t.rounds|
      invariant total == TotalOpened(t.rounds[..i])
    {
      assert t.rounds[..i + 1][..i] == t.rounds[..i];
      total := total + t.rounds[i].streamsOpened;
    }
    assert t.rounds[..|t.rounds|] == t.rounds;
  }

  /**
   Run one trial a turn. The run is cut short as soon as five in a row have opened nothing, and only
   then.
  */
  method Measure(arms: seq<Arm>, attempts: Positive, world: seq<seq<Script>>) returns (trials: seq<Trial>)
    requires arms != [] && Enough(arms, attempts, world)
    ensures trials <= TrialsOf(arms, world)
    ensures forall m :: 0 <= m < |trials| ==> !ClientIsGone(trials[..m])
    ensures |trials| < |world| ==> ClientIsGone(trials)
  {
    ghost var expected := TrialsOf(arms, world);
    forall n | 0 <= n < |world| ensures Expects(expected, arms, world, n) {
      TrialAt(arms, world, n);
    }
    trials := RunTurns(arms, attempts, world, expected);
    StreakTellsWhenGone(trials);
    forall m | 0 <= m < |trials| ensures !ClientIsGone(trials[..m]) {
      UnbrokenMeansStillThere(trials, m);
    }
  }

  /** The loop of `Measure`, given what each trial will come to. */
  method RunTurns(arms: seq<Arm>, attempts: Positive, world: seq<seq<Script>>, ghost expected: seq<Trial>)
    returns (trials: seq<Trial>)
    requires arms != [] && Enough(arms, attempts, world) && |expected| == |world|
    requires forall n :: 0 <= n < |world| ==> Expects(expected, arms, world, n)
    ensures trials <= expected && Unbroken(trials)
    ensures |trials| < |world| ==> RefusingStreak(trials) >= REFUSAL_STREAK_LIMIT
  {
    trials := [];
    var refusingStreak := 0;
    for number := 0 to |world|
      invariant trials == expected[..number]
      invariant refusingStreak == RefusingStreak(trials) < REFUSAL_STREAK_LIMIT && Unbroken(trials)
    {
      var trial := RunTrial(arms, attempts, world, number, expected);
      var streams := CountOpened(trial);
      refusingStreak := if streams == 0 then refusingStreak + 1 else 0;
      OneMoreTrial(expected, number);
      trials := trials + [trial];
      if refusingStreak >= REFUSAL_STREAK_LIMIT {
        return;
      }
    }
  }
}
