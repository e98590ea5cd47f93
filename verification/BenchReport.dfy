/** What the benchmark's report says about the trials: its groups, its rotation and its tables. */
module BenchReport {
  import opened Wrappers
  import opened Dial
  import opened Bench

  // ---------------------------------------------------------------- the rotation

  /** How many of the first `n` turns fall to place `j` of `k`. */
  function Turns(n: nat, j: nat, k: nat): nat
    requires k > 0
  {
    if n == 0 then 0 else Turns(n - 1, j, k) + if (n - 1) % k == j then 1 else 0
  }

  lemma {:induction false} LapEnds(n: nat, k: nat, q: nat)
    requires k > 0 && n + 1 == q * k + k
    ensures (n + 1) % k == 0 && (n + 1) / k == q + 1
  {
    assert n + 1 == (q + 1) * k + 0;
    Quotient(q + 1, 0, k);
  }

  lemma {:induction false} LapGoesOn(n: nat, k: nat, q: nat, r: nat)
    requires r + 1 < k && n == q * k + r
    ensures (n + 1) % k == r + 1 && (n + 1) / k == q
  {
    Quotient(q, r + 1, k);
  }

  lemma {:induction false} NextTurn(n: nat, k: nat)
    requires k > 0
    ensures n % k == k - 1 ==> (n + 1) % k == 0 && (n + 1) / k == n / k + 1
    ensures n % k < k - 1 ==> (n + 1) % k == n % k + 1 && (n + 1) / k == n / k
  {
    var q, r := n / k, n % k;
    assert n == q * k + r;
    if r == k - 1 {
      LapEnds(n, k, q);
    } else {
      LapGoesOn(n, k, q, r);
    }
  }

  lemma {:induction false} TurnsInClosedForm(n: nat, j: nat, k: nat)
    requires j < k
    ensures Turns(n, j, k) == n / k + if j < n % k then 1 else 0
  {
    if n == 0 {
      Quotient(0, 0, k);
    } else {
      TurnsInClosedForm(n - 1, j, k);
      NextTurn(n - 1, k);
    }
  }

  /** The trials come round the arms in order, as `Measure` runs them. */
  predicate Rotates(trials: seq<Trial>, arms: seq<Arm>) {
    arms != [] && forall n :: 0 <= n < |trials| ==> trials[n].arm == Turn(arms, n)
  }

  lemma {:induction false} MeasuredTrialsRotate(trials: seq<Trial>, arms: seq<Arm>, world: seq<seq<Script>>)
    requires arms != [] && trials <= TrialsOf(arms, world)
    ensures Rotates(trials, arms)
  {
    forall n | 0 <= n < |trials| ensures trials[n].arm == Turn(arms, n) {
      TrialAt(arms, world, n);
    }
  }

  /** The trials of one arm, as the report filters them. */
  function Group(trials: seq<Trial>, arm: Arm): seq<Trial> {
    if trials == [] then []
    else
      var rest, t := Group(trials[..|trials| - 1], arm), trials[|trials| - 1];
      if t.arm == arm then rest + [t] else rest
  }

  lemma {:induction false} GroupsJoin(a: seq<Trial>, b: seq<Trial>, arm: Arm)
    ensures Group(a + b, arm) == Group(a, arm) + Group(b, arm)
  {
    if b == [] {
      assert a + b == a;
    } else {
      var n := |b| - 1;
      assert (a + b)[..|a + b| - 1] == a + b[..n];
      GroupsJoin(a, b[..n], arm);
    }
  }

  /** Every trial is in the group of its own arm as often as it was run and in no other's, after those run before it. */
  lemma {:induction false} GroupIsItsTrials(trials: seq<Trial>, arm: Arm, t: Trial, i: nat)
    requires i < |trials|
    ensures multiset(Group(trials, arm))[t] == if t.arm == arm then multiset(trials)[t] else 0
    ensures trials[i].arm == arm ==>
              Group(trials, arm) == Group(trials[..i], arm) + [trials[i]] + Group(trials[i + 1..], arm)
  {
    GroupKeeps(trials, arm, t);
    if trials[i].arm == arm {
      GroupSplits(trials, arm, i);
    }
  }

  lemma {:induction false} GroupSplits(trials: seq<Trial>, arm: Arm, i: nat)
    requires i < |trials| && trials[i].arm == arm
    ensures Group(trials, arm) == Group(trials[..i], arm) + [trials[i]] + Group(trials[i + 1..], arm)
  {
    var one := [trials[i]];
    assert trials == trials[..i] + one + trials[i + 1..];
    GroupsJoin(trials[..i] + one, trials[i + 1..], arm);
    GroupsJoin(trials[..i], one, arm);
    assert one[..0] == [] && Group([], arm) == [];
  }

  lemma {:induction false} GroupKeeps(trials: seq<Trial>, arm: Arm, t: Trial)
    ensures multiset(Group(trials, arm))[t] == if t.arm == arm then multiset(trials)[t] else 0
  {
    if trials != [] {
      var n := |trials| - 1;
      GroupKeeps(trials[..n], arm, t);
      assert trials == trials[..n] + [trials[n]];
    }
  }

  /** At every point of a run, any two places of the rotation have had as many turns as each other, give or take one. */
  lemma {:induction false} RotationStaysBalanced(n: nat, k: nat, i: nat, j: nat)
    requires i < k && j < k
    ensures -1 <= Turns(n, i, k) - Turns(n, j, k) <= 1
  {
    TurnsInClosedForm(n, i, k);
    TurnsInClosedForm(n, j, k);
  }

  /** How many places of the rotation this arm holds. */
  function Places(arms: seq<Arm>, arm: Arm): nat {
    if arms == [] then 0 else Places(arms[..|arms| - 1], arm) + if arms[|arms| - 1] == arm then 1 else 0
  }

  /** The turns those places have had. */
  function TurnsOf(arms: seq<Arm>, arm: Arm, n: nat, k: nat): nat
    requires k > 0
  {
    if arms == [] then 0
    else TurnsOf(arms[..|arms| - 1], arm, n, k) + if arms[|arms| - 1] == arm then Turns(n, |arms| - 1, k) else 0
  }

  lemma {:induction false} OneMoreTurn(arms: seq<Arm>, arm: Arm, n: nat, k: nat)
    requires k > 0
    ensures TurnsOf(arms, arm, n + 1, k)
         == TurnsOf(arms, arm, n, k) + if 0 <= n % k < |arms| && arms[n % k] == arm then 1 else 0
  {
    if arms != [] {
      OneMoreTurn(arms[..|arms| - 1], arm, n, k);
    }
  }

  lemma {:induction false} NoTurnsYet(arms: seq<Arm>, arm: Arm, k: nat)
    requires k > 0
    ensures TurnsOf(arms, arm, 0, k) == 0
  {
    if arms != [] {
      NoTurnsYet(arms[..|arms| - 1], arm, k);
    }
  }

  /** A group has the trials of every place its arm holds. */
  lemma {:induction false} GroupIsItsTurns(trials: seq<Trial>, arms: seq<Arm>, arm: Arm)
    requires Rotates(trials, arms)
    ensures |Group(trials, arm)| == TurnsOf(arms, arm, |trials|, |arms|)
  {
    if trials == [] {
      NoTurnsYet(arms, arm, |arms|);
    } else {
      var n := |trials| - 1;
      GroupIsItsTurns(trials[..n], arms, arm);
      OneMoreTurn(arms, arm, n, |arms|);
      TurnIsRemainder(arms, n);
    }
  }

  lemma {:induction false} PlacesShareTurns(arms: seq<Arm>, arm: Arm, n: nat, k: nat, q: nat)
    requires |arms| <= k && k > 0 && q == n / k
    ensures Times(Places(arms, arm), q) <= TurnsOf(arms, arm, n, k) <= Times(Places(arms, arm), q + 1)
  {
    if arms != [] {
      PlacesShareTurns(arms[..|arms| - 1], arm, n, k, q);
      TurnsInClosedForm(n, |arms| - 1, k);
    }
  }

  /** At every point of any run, an arm has had its rounds of the rotation, or one more, for every place it holds. */
  lemma {:induction false} EveryArmHasItsShare(trials: seq<Trial>, arms: seq<Arm>, m: nat, arm: Arm)
    requires Rotates(trials, arms) && m <= |trials|
    ensures Places(arms, arm) * (m / |arms|) <= |Group(trials[..m], arm)| <= Places(arms, arm) * (m / |arms| + 1)
  {
    GroupIsItsTurns(trials[..m], arms, arm);
    PlacesShareTurns(arms, arm, m, |arms|, m / |arms|);
    TimesIs(Places(arms, arm), m / |arms|);
    TimesIs(Places(arms, arm), m / |arms| + 1);
  }

  /** So groups are balanced when no arm holds two places. */
  lemma {:induction false} GroupsStayBalanced(trials: seq<Trial>, arms: seq<Arm>, m: nat, i: nat, j: nat)
    requires Rotates(trials, arms) && NoRepeats(arms)
    requires m <= |trials| && i < |arms| && j < |arms|
    ensures -1 <= |Group(trials[..m], arms[i])| - |Group(trials[..m], arms[j])| <= 1
  {
    EveryArmHasItsShare(trials, arms, m, arms[i]);
    EveryArmHasItsShare(trials, arms, m, arms[j]);
    PlacesOf(arms, i);
    PlacesOf(arms, j);
  }

  // ---------------------------------------------------------------- the groups

  function Grouped(trials: seq<Trial>, arms: seq<Arm>): nat {
    if arms == [] then 0 else Grouped(trials, arms[..|arms| - 1]) + |Group(trials, arms[|arms| - 1])|
  }

  /** One more trial joins a group for every place its arm has. */
  lemma {:induction false} JoiningGroups(trials: seq<Trial>, t: Trial, arms: seq<Arm>)
    ensures Grouped(trials + [t], arms) == Grouped(trials, arms) + Places(arms, t.arm)
  {
    assert (trials + [t])[..|trials|] == trials;
    if arms != [] {
      JoiningGroups(trials, t, arms[..|arms| - 1]);
    }
  }

  lemma {:induction false} PlacesOf(arms: seq<Arm>, i: nat)
    requires i < |arms|
    ensures Places(arms, arms[i]) >= 1
    ensures Places(arms, arms[i]) == 1 <==> forall j :: 0 <= j < |arms| && j != i ==> arms[j] != arms[i]
  {
    PlacesSplit(arms, arms[i], i);
    NoPlaceIff(arms[..i], arms[i]);
    NoPlaceIff(arms[i + 1..], arms[i]);
    if forall j :: 0 <= j < |arms| && j != i ==> arms[j] != arms[i] {
      var later := arms[i + 1..];
      forall j | 0 <= j < |later| ensures later[j] != arms[i] {
        assert later[j] == arms[i + 1 + j];
      }
    }
    if arms[i] !in arms[..i] && arms[i] !in arms[i + 1..] {
      forall j | 0 <= j < |arms| && j != i ensures arms[j] != arms[i] {
        assert j < i ==> arms[j] in arms[..i];
        assert j > i ==> arms[j] in arms[i + 1..];
      }
    }
  }

  lemma {:induction false} PlacesSplit(arms: seq<Arm>, arm: Arm, i: nat)
    requires i < |arms|
    ensures Places(arms, arm) == Places(arms[..i], arm) + (if arms[i] == arm then 1 else 0) + Places(arms[i + 1..], arm)
  {
    var n := |arms| - 1;
    if i < n {
      PlacesSplit(arms[..n], arm, i);
      assert arms[..n][..i] == arms[..i];
      assert arms[..n][i + 1..] == arms[i + 1..][..n - i - 1];
    }
  }

  lemma {:induction false} NoPlaceIff(arms: seq<Arm>, arm: Arm)
    ensures Places(arms, arm) == 0 <==> arm !in arms
  {
    if arms != [] {
      var n := |arms| - 1;
      NoPlaceIff(arms[..n], arm);
      assert arms == arms[..n] + [arms[n]];
    }
  }

  /** No arm that has had a turn among the first `n` has another place further on. */
  predicate NoneTriedTwice(arms: seq<Arm>, n: nat) {
    forall i, j :: 0 <= i < j < |arms| && i < n ==> arms[i] != arms[j]
  }

  lemma {:induction false} EveryTrialIsGrouped(trials: seq<Trial>, arms: seq<Arm>)
    requires Rotates(trials, arms)
    ensures Grouped(trials, arms) >= |trials|
    ensures NoneTriedTwice(arms, |trials|) ==> Grouped(trials, arms) == |trials|
  {
    if trials == [] {
      NothingGrouped(arms);
    } else {
      var n := |trials| - 1;
      EveryTrialIsGrouped(trials[..n], arms);
      assert trials == trials[..n] + [trials[n]];
      JoiningGroups(trials[..n], trials[n], arms);
      TurnIsRemainder(arms, n);
      PlacesOf(arms, n % |arms|);
    }
  }

  lemma {:induction false} NothingGrouped(arms: seq<Arm>)
    ensures Grouped([], arms) == 0
  {
    if arms != [] {
      NothingGrouped(arms[..|arms| - 1]);
    }
  }

  /** A trial of an arm with two places is grouped twice. */
  lemma {:induction false} RepeatIsCountedTwice(trials: seq<Trial>, arms: seq<Arm>, i: nat, j: nat)
    requires Rotates(trials, arms)
    requires i < j < |arms| && arms[i] == arms[j] && i < |trials|
    ensures Grouped(trials, arms) > |trials|
  {
    var n := |trials| - 1;
    assert trials == trials[..n] + [trials[n]];
    JoiningGroups(trials[..n], trials[n], arms);
    TurnIsRemainder(arms, n);
    PlacesOf(arms, n % |arms|);
    if n == i {
      EveryTrialIsGrouped(trials[..n], arms);
      Quotient(0, i, |arms|);
    } else {
      RepeatIsCountedTwice(trials[..n], arms, i, j);
    }
  }

  /**
   The groups add up to the trials exactly when no arm that has had a turn is repeated; once every arm
   has had one, exactly when no arm is repeated at all.
  */
  lemma {:induction false} GroupsPartitionIff(trials: seq<Trial>, arms: seq<Arm>)
    requires Rotates(trials, arms)
    ensures Grouped(trials, arms) == |trials| <==> NoneTriedTwice(arms, |trials|)
    ensures |trials| >= |arms| ==> (Grouped(trials, arms) == |trials| <==> NoRepeats(arms))
  {
    EveryTrialIsGrouped(trials, arms);
    if !NoneTriedTwice(arms, |trials|) {
      var i, j :| 0 <= i < j < |arms| && i < |trials| && arms[i] == arms[j];
      RepeatIsCountedTwice(trials, arms, i, j);
    }
  }

  // ---------------------------------------------------------------- failures by round

  /** What the table prints as reached: the trials with more rounds than this. */
  function Reached(trials: seq<Trial>, j: nat): nat {
    if trials == [] then 0
    else Reached(trials[..|trials| - 1], j) + if |trials[|trials| - 1].rounds| > j then 1 else 0
  }

  /** What the table prints as failed: those whose round this is went unanswered. */
  function FailedIn(trials: seq<Trial>, j: nat): nat {
    if trials == [] then 0
    else FailedIn(trials[..|trials| - 1], j) + if FailedRound(trials[|trials| - 1], j) then 1 else 0
  }

  predicate FailedRound(t: Trial, j: nat) { j < |t.rounds| && !t.rounds[j].answered }

  predicate EarlierFailed(t: Trial, j: nat) {
    j <= |t.rounds| && forall i :: 0 <= i < j ==> !t.rounds[i].answered
  }

  /** What the table is read as: the trials whose first `j` rounds all failed. */
  function FailedBefore(trials: seq<Trial>, j: nat): nat {
    if trials == [] then 0
    else FailedBefore(trials[..|trials| - 1], j) + if EarlierFailed(trials[|trials| - 1], j) then 1 else 0
  }

  /** The trials that would have been a closed socket to a wallet. */
  function Visible(trials: seq<Trial>): nat {
    if trials == [] then 0 else Visible(trials[..|trials| - 1]) + if Answered(trials[|trials| - 1]) then 0 else 1
  }

  /** Every trial is the dialler's, on one budget and round size. */
  predicate OneArm(trials: seq<Trial>, attempts: Positive, c: Positive) {
    forall i :: 0 <= i < |trials| ==> Genuine(trials[i], attempts) && trials[i].arm.concurrency == c
  }

  lemma {:induction false} TrialInTable(t: Trial, attempts: Positive, j: nat)
    requires Genuine(t, attempts)
    ensures var last := RoundCount(attempts, t.arm.concurrency) - 1;
            && (j <= last ==> (|t.rounds| > j <==> EarlierFailed(t, j)))
            && (j > last ==> |t.rounds| <= j)
            && (j < last ==> (|t.rounds| > j + 1 <==> FailedRound(t, j)))
            && (j == last ==> (FailedRound(t, j) <==> !Answered(t)))
  {
    if EarlierFailed(t, |t.rounds|) {
      assert NoAnswer(t.rounds);
    }
  }

  /**
   The table of rates conditional on every earlier round failing means what it says, though it only
   compares how many rounds there were: a trial reaches a round exactly when every round before it
   failed, the ones that fail one round are the ones that reach the next, and the ones that fail the
   last round the budget buys are the failures a wallet would see.
  */
  lemma {:induction false} TableMeansWhatItSays(trials: seq<Trial>, attempts: Positive, c: Positive, j: nat)
    requires OneArm(trials, attempts, c)
    ensures var last := RoundCount(attempts, c) - 1;
            && (j <= last ==> Reached(trials, j) == FailedBefore(trials, j))
            && (j > last ==> Reached(trials, j) == 0)
            && (j < last ==> Reached(trials, j + 1) == FailedIn(trials, j))
            && (j == last ==> FailedIn(trials, j) == Visible(trials))
  {
    if trials != [] {
      var n := |trials| - 1;
      TableMeansWhatItSays(trials[..n], attempts, c, j);
      TrialInTable(trials[n], attempts, j);
    }
  }

  /** Every trial reaches the first round, so the table starts from all of them. */
  lemma {:induction false} AllReachTheFirst(trials: seq<Trial>, attempts: Positive, c: Positive)
    requires OneArm(trials, attempts, c)
    ensures Reached(trials, 0) == |trials|
    ensures Visible(trials) <= FailedIn(trials, 0) <= |trials|
  {
    if trials != [] {
      var n := |trials| - 1;
      AllReachTheFirst(trials[..n], attempts, c);
      assert Genuine(trials[n], attempts);
    }
  }

  datatype Row = Row(reached: nat, failed: nat)

  method CountRow(trials: seq<Trial>, index: nat) returns (row: Row)
    ensures row == Row(Reached(trials, index), FailedIn(trials, index))
  {
    var reached, failed := 0, 0;
    for i := 0 to |trials|
      invariant reached == Reached(trials[..i], index) && failed == FailedIn(trials[..i], index)
    {
      assert trials[..i + 1][..i] == trials[..i];
      var rounds := trials[i].rounds;
      if |rounds| > index {
        reached := reached + 1;
        if !rounds[index].answered {
          failed := failed + 1;
        }
      }
    }
    assert trials[..|trials|] == trials;
    return Row(reached, failed);
  }

  method ConditionalRates(trials: seq<Trial>) returns (table: seq<Row>)
    ensures forall i :: 0 <= i < |table| ==> table[i] == Row(Reached(trials, i), FailedIn(trials, i))
    ensures table != [] ==> forall t :: t in trials ==> |t.rounds| <= |table|
    ensures table == [] <==> forall t :: t in trials ==> |t.rounds| < 2
    ensures table != [] ==> exists t :: t in trials && |t.rounds| == |table|
  {
    var deepest := 0;
    for i := 0 to |trials|
      invariant forall n :: 0 <= n < i ==> |trials[n].rounds| <= deepest
      invariant deepest > 0 ==> exists n :: 0 <= n < i && |trials[n].rounds| == deepest
    {
      deepest := Max(deepest, |trials[i].rounds|);
    }
    table := [];
    if deepest < 2 {
      return;
    }
    for index := 0 to deepest
      invariant |table| == index
      invariant forall i :: 0 <= i < index ==> table[i] == Row(Reached(trials, i), FailedIn(trials, i))
    {
      var row := CountRow(trials, index);
      table := table + [row];
    }
  }

  // ---------------------------------------------------------------- failures inside a round

  datatype Spread = Spread(streams: nat, unanswered: nat)

  function SpreadOf(r: Round): Spread { Spread(r.streamsOpened, Unanswered(r)) }

  /** How many rounds that tried more than one stream came out like this. */
  function Alike(rounds: seq<Round>, key: Spread): nat {
    if rounds == [] then 0
    else
      var r := rounds[|rounds| - 1];
      Alike(rounds[..|rounds| - 1], key) + if Attempted(r) > 1 && SpreadOf(r) == key then 1 else 0
  }

  ghost predicate Tallies(spread: map<Spread, nat>, rounds: seq<Round>) {
    forall key :: (key in spread <==> Alike(rounds, key) > 0) && (key in spread ==> spread[key] == Alike(rounds, key))
  }

  method WithinRound(rounds: seq<Round>) returns (spread: map<Spread, nat>)
    ensures Tallies(spread, rounds)
  {
    spread := map[];
    for i := 0 to |rounds|
      invariant Tallies(spread, rounds[..i])
    {
      assert rounds[..i + 1][..i] == rounds[..i];
      if Attempted(rounds[i]) > 1 {
        var key := SpreadOf(rounds[i]);
        spread := spread[key := 1 + if key in spread then spread[key] else 0];
      }
    }
    assert rounds[..|rounds|] == rounds;
  }

  /**
   A round failed exactly when it is on the table's diagonal; the rest left somebody answered or let go of.
   The streams a line is for are those opened, refusals left out.
  */
  lemma {:induction false} FailedRoundsAreTheDiagonal(r: Round, size: nat)
    requires Balanced(r, size)
    ensures !r.answered <==> SpreadOf(r).unanswered == SpreadOf(r).streams
    ensures r.answered ==> SpreadOf(r).unanswered < SpreadOf(r).streams
    ensures SpreadOf(r).streams + CountRefused(r.discarded) == size
    ensures SpreadOf(r).unanswered + CountRefused(r.discarded) == |r.discarded|
  {
  }

  /** The round at `i` had more than one stream to try, and came out like this. */
  predicate ComesOut(rounds: seq<Round>, attempts: nat, c: Positive, i: nat, key: Spread) {
    && i < |rounds| && SizeOf(i, attempts, c) > 1
    && rounds[i].streamsOpened == key.streams
    && |rounds[i].discarded| == key.unanswered + (SizeOf(i, attempts, c) - key.streams)
  }

  lemma {:induction false} AlikeIsComingOut(rounds: seq<Round>, attempts: nat, c: Positive, i: nat, key: Spread)
    requires Ladder(rounds, attempts, c) && i < |rounds|
    ensures ComesOut(rounds, attempts, c, i, key) <==> Attempted(rounds[i]) > 1 && SpreadOf(rounds[i]) == key
  {
    assert Balanced(rounds[i], SizeOf(i, attempts, c));
  }

  /** Which of the first `n` rounds did. */
  function ComingOut(rounds: seq<Round>, attempts: nat, c: Positive, n: nat, key: Spread): set<nat> {
    set i: nat | i < n && ComesOut(rounds, attempts, c, i, key)
  }

  lemma {:induction false} OneMoreComingOut(rounds: seq<Round>, attempts: nat, c: Positive, n: nat, key: Spread)
    ensures |ComingOut(rounds, attempts, c, n + 1, key)|
         == |ComingOut(rounds, attempts, c, n, key)| + if ComesOut(rounds, attempts, c, n, key) then 1 else 0
  {
    var before, now := ComingOut(rounds, attempts, c, n, key), ComingOut(rounds, attempts, c, n + 1, key);
    assert now == if ComesOut(rounds, attempts, c, n, key) then before + {n} else before;
  }

  lemma {:induction false} OneMoreAlike(rounds: seq<Round>, n: nat, key: Spread)
    requires n < |rounds|
    ensures Alike(rounds[..n + 1], key)
         == Alike(rounds[..n], key) + if Attempted(rounds[n]) > 1 && SpreadOf(rounds[n]) == key then 1 else 0
  {
    assert rounds[..n + 1][..n] == rounds[..n];
  }

  /** The map takes the round at `i` as it came out. */
  predicate TakenRight(rounds: seq<Round>, attempts: nat, c: Positive, i: nat, key: Spread)
    requires i < |rounds|
  {
    ComesOut(rounds, attempts, c, i, key) <==> Attempted(rounds[i]) > 1 && SpreadOf(rounds[i]) == key
  }

  lemma {:induction false} AlikeIsCounted(rounds: seq<Round>, attempts: nat, c: Positive, n: nat, key: Spread)
    requires n <= |rounds| && forall i :: 0 <= i < n ==> TakenRight(rounds, attempts, c, i, key)
    ensures Alike(rounds[..n], key) == |ComingOut(rounds, attempts, c, n, key)|
  {
    if n == 0 {
      assert ComingOut(rounds, attempts, c, 0, key) == {};
    } else {
      AlikeIsCounted(rounds, attempts, c, n - 1, key);
      assert TakenRight(rounds, attempts, c, n - 1, key);
      OneMoreComingOut(rounds, attempts, c, n - 1, key);
      OneMoreAlike(rounds, n - 1, key);
    }
  }

  /** What the map counts, for a dial's rounds: those that had more than one stream to try, by how they came out. */
  lemma {:induction false} SpreadCountsRounds(rounds: seq<Round>, attempts: nat, c: Positive, key: Spread)
    requires Ladder(rounds, attempts, c)
    ensures Alike(rounds, key) == |ComingOut(rounds, attempts, c, |rounds|, key)|
  {
    forall i | 0 <= i < |rounds| ensures TakenRight(rounds, attempts, c, i, key) {
      AlikeIsComingOut(rounds, attempts, c, i, key);
    }
    AlikeIsCounted(rounds, attempts, c, |rounds|, key);
    assert rounds[..|rounds|] == rounds;
  }
}
