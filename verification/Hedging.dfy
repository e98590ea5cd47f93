/**
 What opening streams together buys.

 The fate of every stream a dial may open is fixed beforehand, and only how the streams are grouped
 into rounds varies. Opening is instantaneous, so a stream costs what its probe takes.
*/
module Hedging {
  import opened Wrappers
  import opened Handshake
  import opened Dial

  datatype Fate = Answers(after: nat) | Fails(after: nat) | Refuses

  function Cost(f: Fate): nat { if f.Refuses? then 0 else f.after }

  /** When the wallet has a stream, or when the budget ran out. */
  datatype Wait = Established(at: nat) | Exhausted(at: nat)

  function Later(delay: nat, w: Wait): Wait {
    match w
    case Established(at) => Established(delay + at)
    case Exhausted(at) => Exhausted(delay + at)
  }

  /** Where the first answer is, or how many streams there are. */
  function FirstAnswer(fates: seq<Fate>): (k: nat)
    ensures k <= |fates|
  {
    if fates == [] || fates[0].Answers? then 0 else 1 + FirstAnswer(fates[1..])
  }

  predicate HasAnswer(fates: seq<Fate>) { FirstAnswer(fates) < |fates| }

  lemma {:induction false} FirstAnswerIs(fates: seq<Fate>)
    ensures forall i :: 0 <= i < FirstAnswer(fates) ==> !fates[i].Answers?
    ensures HasAnswer(fates) ==> fates[FirstAnswer(fates)].Answers?
  {
    if fates != [] && !fates[0].Answers? {
      FirstAnswerIs(fates[1..]);
      forall i | 0 < i < FirstAnswer(fates) ensures !fates[i].Answers? { assert !fates[1..][i - 1].Answers?; }
    }
  }

  lemma {:induction false} AnAnswerIsFound(fates: seq<Fate>, i: nat)
    requires i < |fates| && fates[i].Answers?
    ensures HasAnswer(fates) && FirstAnswer(fates) <= i
  {
    FirstAnswerIs(fates);
  }

  /** The quickest of the answers; zero when there is none. */
  function MinAnswer(fates: seq<Fate>): nat {
    if fates == [] then 0
    else if !fates[0].Answers? then MinAnswer(fates[1..])
    else if HasAnswer(fates[1..]) then Min(fates[0].after, MinAnswer(fates[1..]))
    else fates[0].after
  }

  predicate AnswersIn(fates: seq<Fate>, i: nat, m: nat) { i < |fates| && fates[i] == Answers(m) }

  predicate NotQuicker(fates: seq<Fate>, i: nat, m: nat) { i < |fates| && fates[i].Answers? ==> m <= fates[i].after }

  lemma {:induction false} MinAnswerIs(fates: seq<Fate>) returns (i: nat)
    requires HasAnswer(fates)
    ensures AnswersIn(fates, i, MinAnswer(fates))
    ensures forall j: nat :: j < |fates| ==> NotQuicker(fates, j, MinAnswer(fates))
  {
    var m := MinAnswer(fates);
    i := 0;
    if HasAnswer(fates[1..]) {
      var k := MinAnswerIs(fates[1..]);
      i := if fates[0].Answers? && m == fates[0].after then 0 else k + 1;
      forall j: nat | j < |fates| ensures NotQuicker(fates, j, m) {
        if j > 0 {
          assert NotQuicker(fates[1..], j - 1, MinAnswer(fates[1..]));
        }
      }
    } else {
      FirstAnswerIs(fates[1..]);
      forall j: nat | j < |fates| ensures NotQuicker(fates, j, m) {
        if j > 0 {
          assert !fates[1..][j - 1].Answers?;
        }
      }
    }
  }

  /** The slowest stream. */
  function MaxCost(fates: seq<Fate>): nat {
    if fates == [] then 0 else Max(Cost(fates[0]), MaxCost(fates[1..]))
  }

  lemma {:induction false} MaxCostIs(fates: seq<Fate>) returns (i: nat)
    requires fates != []
    ensures i < |fates| && Cost(fates[i]) == MaxCost(fates)
    ensures forall j :: 0 <= j < |fates| ==> Cost(fates[j]) <= MaxCost(fates)
  {
    i := 0;
    if |fates| > 1 {
      var k := MaxCostIs(fates[1..]);
      i := if Cost(fates[0]) == MaxCost(fates) then 0 else k + 1;
      forall j | 0 <= j < |fates| ensures Cost(fates[j]) <= MaxCost(fates) {
        assert j > 0 ==> fates[j] == fates[1..][j - 1];
      }
    }
  }

  /**
   The wait in rounds of `c`: a round with an answer ends at its quickest one, a round without one at
   its slowest failure, and the next round starts there.
  */
  function Establish(fates: seq<Fate>, c: Positive): Wait
    decreases |fates|
  {
    if fates == [] then Exhausted(0)
    else
      var n := Min(c, |fates|);
      if HasAnswer(fates[..n]) then Established(MinAnswer(fates[..n]))
      else Later(MaxCost(fates[..n]), Establish(fates[n..], c))
  }

  // ---------------------------------------------------------------- it is what the dial takes

  function RoundTime(r: RoundResult): nat {
    match r.answer
    case Some(answer) => answer.elapsed
    case None => if r.round.discarded == [] then 0 else r.round.discarded[|r.round.discarded| - 1].elapsed
  }

  /** The wall clock of a dial whose rounds come to these results. */
  function Clock(results: seq<RoundResult>): Wait {
    if results == [] then Exhausted(0)
    else if results[0].answer.Some? then Established(RoundTime(results[0]))
    else Later(RoundTime(results[0]), Clock(results[1..]))
  }

  /** The script is a round of these streams, each meeting its fate. */
  ghost predicate Follows(script: Script, fates: seq<Fate>) {
    && Plays(script, |fates|, true)
    && (forall p :: 0 <= p < |fates| ==> (script.opens[p].Refused? <==> fates[p].Refuses?))
    && (forall p :: 0 <= p < |fates| && script.opens[p].Refused? ==> script.opens[p].elapsed == 0)
    && (forall i :: 0 <= i < |script.finishes| && script.finishes[i].stream < |fates| ==>
          script.finishes[i].elapsed == Cost(fates[script.finishes[i].stream])
          && (script.finishes[i].error.None? <==> fates[script.finishes[i].stream].Answers?))
  }

  ghost predicate FollowsSchedule(scripts: seq<Script>, fates: seq<Fate>, c: Positive)
    decreases |fates|
  {
    if fates == [] then scripts == []
    else
      var n := Min(c, |fates|);
      scripts != [] && Follows(scripts[0], fates[..n]) && FollowsSchedule(scripts[1..], fates[n..], c)
  }

  /** Every opened stream's probe is among the finishes, and every finish is of an opened stream. */
  lemma {:induction false} FinishOf(script: Script, fates: seq<Fate>, p: nat) returns (i: nat)
    requires Follows(script, fates) && p < |fates| && !fates[p].Refuses?
    ensures i < |script.finishes| && script.finishes[i].stream == p
  {
    OpenedAtIsOpened(script.opens, p);
    assert p in multiset(Streams(script.finishes));
    i :| 0 <= i < |Streams(script.finishes)| && Streams(script.finishes)[i] == p;
    StreamAt(script.finishes, i);
  }

  lemma {:induction false} FinishIsOfOpened(script: Script, fates: seq<Fate>, i: nat)
    requires Follows(script, fates) && i < |script.finishes|
    ensures script.finishes[i].stream < |fates| && !fates[script.finishes[i].stream].Refuses?
  {
    StreamAt(script.finishes, i);
    assert script.finishes[i].stream in multiset(Streams(script.finishes));
    OpenedAtIsOpened(script.opens, script.finishes[i].stream);
  }

  lemma {:induction false} AnsweredRoundTime(script: Script, fates: seq<Fate>)
    requires Follows(script, fates) && HasAnswer(fates)
    ensures var r := RoundOf(true, script);
            r.answer.Some? && RoundTime(r) == MinAnswer(fates)
  {
    var k, m := FirstEcho(script.finishes), MinAnswer(fates);
    var p := MinAnswerIs(fates);
    var i := FinishOf(script, fates, p);
    assert script.finishes[i].error.None? && script.finishes[i].elapsed == m;
    assert k <= i;
    FinishIsOfOpened(script, fates, k);
    assert NotQuicker(fates, script.finishes[k].stream, m);
  }

  lemma {:induction false} NoEcho(script: Script, fates: seq<Fate>)
    requires Follows(script, fates) && !HasAnswer(fates)
    ensures FirstEcho(script.finishes) == |script.finishes|
  {
    var k := FirstEcho(script.finishes);
    if k < |script.finishes| {
      FinishIsOfOpened(script, fates, k);
      AnAnswerIsFound(fates, script.finishes[k].stream);
    }
  }

  lemma {:induction false} FailedRoundTime(script: Script, fates: seq<Fate>)
    requires Follows(script, fates) && !HasAnswer(fates) && fates != []
    ensures var r := RoundOf(true, script);
            r.answer.None? && RoundTime(r) == MaxCost(fates)
  {
    var finishes := script.finishes;
    NoEcho(script, fates);
    assert finishes[..|finishes|] == finishes;
    RefusalsBefore(script.opens, 0);
    var p := MaxCostIs(fates);
    if !fates[p].Refuses? {
      var i := FinishOf(script, fates, p);
      assert finishes[i].elapsed <= finishes[|finishes| - 1].elapsed;
    }
    if finishes == [] {
      assert Refusals(script.opens) + Failures(finishes) == Refusals(script.opens);
    } else {
      FailureAt(finishes, |finishes| - 1);
      FinishIsOfOpened(script, fates, |finishes| - 1);
    }
  }

  /** The dial, on transports that give every stream its fate, takes exactly the wait. */
  lemma {:induction false} DialTakesTheWait(scripts: seq<Script>, fates: seq<Fate>, c: Positive)
    requires FollowsSchedule(scripts, fates, c)
    ensures Clock(Results(true, scripts)) == Establish(fates, c)
    decreases |fates|
  {
    if fates != [] {
      var n := Min(c, |fates|);
      var results := Results(true, scripts);
      ResultAt(true, scripts, 0);
      if HasAnswer(fates[..n]) {
        AnsweredRoundTime(scripts[0], fates[..n]);
      } else {
        FailedRoundTime(scripts[0], fates[..n]);
        DialTakesTheWait(scripts[1..], fates[n..], c);
        ResultsTail(scripts);
      }
    }
  }

  lemma {:induction false} ResultsTail(scripts: seq<Script>)
    requires scripts != []
    ensures Results(true, scripts)[1..] == Results(true, scripts[1..])
  {
    forall i | 0 <= i < |scripts| - 1 ensures Results(true, scripts)[1..][i] == Results(true, scripts[1..])[i] {
      ResultAt(true, scripts, i + 1);
      ResultAt(true, scripts[1..], i);
    }
  }

  // ---------------------------------------------------------------- there is always such a transport

  function OpenFor(f: Fate): OpenResult { if f.Refuses? then Refused(0, 0) else Opened }

  function FinishFor(p: nat, f: Fate): Finish {
    Finish(p, Cost(f), if f.Answers? then None else Some(TimedOut))
  }

  function OpensFor(fates: seq<Fate>): (opens: seq<OpenResult>)
    ensures |opens| == |fates|
  {
    if fates == [] then [] else OpensFor(fates[..|fates| - 1]) + [OpenFor(fates[|fates| - 1])]
  }

  /** Where one that takes `elapsed` goes, behind all that take no longer. */
  function PlaceFor(finishes: seq<Finish>, elapsed: nat): (k: nat)
    ensures k <= |finishes|
    ensures k > 0 ==> finishes[k - 1].elapsed <= elapsed
    ensures forall i :: k <= i < |finishes| ==> elapsed <= finishes[i].elapsed
  {
    var n := |finishes| - 1;
    if finishes == [] || finishes[n].elapsed <= elapsed then n + 1 else PlaceFor(finishes[..n], elapsed)
  }

  function Insert(finishes: seq<Finish>, f: Finish): seq<Finish> {
    var k := PlaceFor(finishes, f.elapsed);
    finishes[..k] + [f] + finishes[k..]
  }

  function FinishesFor(fates: seq<Fate>): seq<Finish> {
    if fates == [] then []
    else
      var n := |fates| - 1;
      if fates[n].Refuses? then FinishesFor(fates[..n]) else Insert(FinishesFor(fates[..n]), FinishFor(n, fates[n]))
  }

  /** A round in which every stream meets its fate. */
  function ScriptFor(fates: seq<Fate>): Script { Script(OpensFor(fates), FinishesFor(fates), 0, None) }

  predicate InTime(finishes: seq<Finish>) {
    forall i, j :: 0 <= i < j < |finishes| ==> finishes[i].elapsed <= finishes[j].elapsed
  }

  lemma {:induction false} StreamsJoin(a: seq<Finish>, b: seq<Finish>)
    ensures Streams(a + b) == Streams(a) + Streams(b)
  {
    if b == [] {
      assert a + b == a;
    } else {
      var n := |b| - 1;
      assert (a + b)[..|a + b| - 1] == a + b[..n];
      StreamsJoin(a, b[..n]);
    }
  }

  lemma {:induction false} InsertKeepsStreams(finishes: seq<Finish>, f: Finish)
    ensures multiset(Streams(Insert(finishes, f))) == multiset(Streams(finishes)) + multiset{f.stream}
  {
    var k := PlaceFor(finishes, f.elapsed);
    StreamsJoin(finishes[..k], [f]);
    StreamsJoin(finishes[..k] + [f], finishes[k..]);
    StreamsJoin(finishes[..k], finishes[k..]);
    assert finishes[..k] + finishes[k..] == finishes;
    assert Streams([f]) == [f.stream];
  }

  lemma {:induction false} InsertKeepsTime(finishes: seq<Finish>, f: Finish)
    requires InTime(finishes)
    ensures InTime(Insert(finishes, f))
  {
  }

  lemma {:induction false} OpenForEach(fates: seq<Fate>, p: nat)
    requires p < |fates|
    ensures OpensFor(fates)[p] == OpenFor(fates[p])
  {
    if p < |fates| - 1 {
      OpenForEach(fates[..|fates| - 1], p);
    }
  }

  predicate MeetsFate(f: Finish, fates: seq<Fate>) {
    f.stream < |fates| && !fates[f.stream].Refuses? && f == FinishFor(f.stream, fates[f.stream])
  }

  lemma {:induction false} FinishesInTime(fates: seq<Fate>)
    ensures InTime(FinishesFor(fates))
  {
    if fates != [] {
      var n := |fates| - 1;
      FinishesInTime(fates[..n]);
      InsertKeepsTime(FinishesFor(fates[..n]), FinishFor(n, fates[n]));
    }
  }

  lemma {:induction false} FinishesMeetFates(fates: seq<Fate>)
    ensures forall i: nat :: i < |FinishesFor(fates)| ==> MeetsFate(FinishesFor(fates)[i], fates)
  {
    if fates != [] {
      var n := |fates| - 1;
      var before := fates[..n];
      FinishesMeetFates(before);
      if !fates[n].Refuses? {
        var f := FinishFor(n, fates[n]);
        var k := PlaceFor(FinishesFor(before), f.elapsed);
        forall i: nat | i < |FinishesFor(fates)| ensures MeetsFate(FinishesFor(fates)[i], fates) {
          assert i != k ==> MeetsFate(FinishesFor(before)[if i < k then i else i - 1], before);
        }
      } else {
        forall i: nat | i < |FinishesFor(fates)| ensures MeetsFate(FinishesFor(fates)[i], fates) {
          assert MeetsFate(FinishesFor(before)[i], before);
        }
      }
    }
  }

  lemma {:induction false} AllOpenedFinish(fates: seq<Fate>)
    ensures multiset(Streams(FinishesFor(fates))) == multiset(OpenedAt(OpensFor(fates)))
  {
    if fates != [] {
      var n := |fates| - 1;
      AllOpenedFinish(fates[..n]);
      assert OpensFor(fates)[..n] == OpensFor(fates[..n]);
      InsertKeepsStreams(FinishesFor(fates[..n]), FinishFor(n, fates[n]));
    }
  }

  /** Refusals come at once. */
  lemma {:induction false} RefusedAtOnce(fates: seq<Fate>)
    ensures forall p: nat :: p < |fates| && OpensFor(fates)[p].Refused? ==> OpensFor(fates)[p].elapsed == 0
    ensures forall p: nat :: p < |fates| ==> (OpensFor(fates)[p].Refused? <==> fates[p].Refuses?)
  {
    forall p: nat | p < |fates| ensures OpensFor(fates)[p] == OpenFor(fates[p]) {
      OpenForEach(fates, p);
    }
  }

  lemma {:induction false} ScriptForPlays(fates: seq<Fate>)
    ensures Plays(ScriptFor(fates), |fates|, true)
  {
    RefusedAtOnce(fates);
    FinishesInTime(fates);
    AllOpenedFinish(fates);
  }

  lemma {:induction false} ScriptForFollows(fates: seq<Fate>)
    ensures Follows(ScriptFor(fates), fates)
  {
    ScriptForPlays(fates);
    RefusedAtOnce(fates);
    FinishesMeetFates(fates);
    forall i: nat | i < |FinishesFor(fates)|
      ensures var f := FinishesFor(fates)[i];
              && f.stream < |fates| && f.elapsed == Cost(fates[f.stream])
              && (f.error.None? <==> fates[f.stream].Answers?)
    {
      assert MeetsFate(FinishesFor(fates)[i], fates);
    }
  }

  /** Whatever the fates and the size of the rounds, some transport gives every stream its fate. */
  lemma {:induction false} SomeTransportFollows(fates: seq<Fate>, c: Positive) returns (scripts: seq<Script>)
    ensures FollowsSchedule(scripts, fates, c)
    ensures Clock(Results(true, scripts)) == Establish(fates, c)
    decreases |fates|
  {
    scripts := [];
    if fates != [] {
      var n := Min(c, |fates|);
      var rest := SomeTransportFollows(fates[n..], c);
      ScriptForFollows(fates[..n]);
      scripts := [ScriptFor(fates[..n])] + rest;
      assert scripts[1..] == rest;
    }
    DialTakesTheWait(scripts, fates, c);
  }

  lemma {:induction false} FollowedRound(scripts: seq<Script>, fates: seq<Fate>, c: Positive, i: nat)
    requires FollowsSchedule(scripts, fates, c) && i < |scripts|
    ensures Plays(scripts[i], SizeOf(i, |fates|, c), true)
    decreases |fates|
  {
    if i > 0 {
      FollowedRound(scripts[1..], fates[Min(c, |fates|)..], c, i - 1);
      LeftShift(i - 1, |fates|, c);
    }
  }

  lemma {:induction false} FollowedRounds(scripts: seq<Script>, fates: seq<Fate>, c: Positive)
    requires FollowsSchedule(scripts, fates, c)
    ensures |scripts| == RoundCount(|fates|, c)
    decreases |fates|
  {
    if fates != [] {
      FollowedRounds(scripts[1..], fates[Min(c, |fates|)..], c);
    }
  }

  /** It is a transport the dial can meet, given a budget of that many attempts. */
  lemma {:induction false} FollowingObeys(scripts: seq<Script>, fates: seq<Fate>, c: Positive)
    requires FollowsSchedule(scripts, fates, c) && 0 < |fates| < 0x1_0000_0000
    ensures Obeys(scripts, Settings(Some(Budget(|fates|, c))))
  {
    FollowedRounds(scripts, fates, c);
    forall i | 0 <= i < |scripts| ensures Plays(scripts[i], SizeOf(i, |fates|, c), true) {
      FollowedRound(scripts, fates, c, i);
    }
  }

  // ---------------------------------------------------------------- which round sizes never lose to which

  lemma {:induction false} OneByOne(f: Fate, rest: seq<Fate>)
    ensures FirstAnswer([f] + rest) == if f.Answers? then 0 else 1 + FirstAnswer(rest)
    ensures MaxCost([f] + rest) == Max(Cost(f), MaxCost(rest))
    ensures MinAnswer([f] + rest) == if !f.Answers? then MinAnswer(rest)
                                     else if HasAnswer(rest) then Min(f.after, MinAnswer(rest)) else f.after
  {
    assert ([f] + rest)[1..] == rest;
  }

  lemma {:induction false} JoinFates(a: seq<Fate>, b: seq<Fate>)
    ensures HasAnswer(a + b) <==> HasAnswer(a) || HasAnswer(b)
    ensures MaxCost(a + b) == Max(MaxCost(a), MaxCost(b))
    ensures HasAnswer(a) ==> MinAnswer(a + b) <= MinAnswer(a)
    ensures !HasAnswer(a) ==> MinAnswer(a + b) == MinAnswer(b)
  {
    if a == [] {
      assert a + b == b;
    } else {
      assert a == [a[0]] + a[1..] && a + b == [a[0]] + (a[1..] + b);
      JoinFates(a[1..], b);
      OneByOne(a[0], a[1..]);
      OneByOne(a[0], a[1..] + b);
    }
  }

  /** Whether a dial comes to anything does not depend on the size of its rounds. */
  lemma {:induction false} EstablishedIff(fates: seq<Fate>, c: Positive)
    ensures Establish(fates, c).Established? <==> HasAnswer(fates)
    decreases |fates|
  {
    if fates != [] {
      var n := Min(c, |fates|);
      assert fates == fates[..n] + fates[n..];
      JoinFates(fates[..n], fates[n..]);
      EstablishedIff(fates[n..], c);
    }
  }

  /** The streams that `m` rounds of `c` take, or all there are. */
  function Taken(fates: seq<Fate>, c: Positive, m: nat): (n: nat)
    ensures n <= |fates|
  {
    Min(Times(m, c), |fates|)
  }

  /**
   Rounds of `c` pay at least what one round of their streams would: its slowest failure when none of
   them answers, and its quickest answer when one does.
  */
  lemma {:induction false} RoundsPay(fates: seq<Fate>, c: Positive, m: nat)
    ensures Pays(fates[..Taken(fates, c, m)], fates[Taken(fates, c, m)..], Establish(fates, c).at, c)
    decreases m
  {
    if m == 0 || fates == [] {
      var n := Taken(fates, c, m);
      assert fates[..n] == [] && fates[n..] == fates;
    } else {
      var k := Min(c, |fates|);
      var rest := fates[k..];
      var more := Taken(rest, c, m - 1);
      RoundsPay(rest, c, m - 1);
      OneMoreRound(fates[..k], rest[..more], rest[more..], Establish(rest, c).at, c);
      TakenAfterOne(fates, c, m);
    }
  }

  lemma {:induction false} TakenAfterOne(fates: seq<Fate>, c: Positive, m: nat)
    requires m > 0
    ensures var k, n := Min(c, |fates|), Taken(fates, c, m);
            var more := Taken(fates[k..], c, m - 1);
            n == k + more && fates[..n] == fates[..k] + fates[k..][..more] && fates[n..] == fates[k..][more..]
  {
  }

  /** A dial that takes `at` pays for a round of `head` before it comes to `tail`. */
  predicate Pays(head: seq<Fate>, tail: seq<Fate>, at: nat, c: Positive) {
    && (HasAnswer(head) ==> MinAnswer(head) <= at)
    && (!HasAnswer(head) ==> MaxCost(head) + Establish(tail, c).at <= at)
  }

  lemma {:induction false} OneMoreRound(first: seq<Fate>, head: seq<Fate>, tail: seq<Fate>, at: nat, c: Positive)
    requires Pays(head, tail, at, c)
    ensures Pays(first + head, tail, if HasAnswer(first) then MinAnswer(first) else MaxCost(first) + at, c)
  {
    JoinFates(first, head);
  }

  lemma {:induction false} MultiplesNeverLose(fates: seq<Fate>, c: Positive, d: Positive, m: nat)
    requires d == Times(m, c)
    ensures Establish(fates, d).at <= Establish(fates, c).at
    decreases |fates|
  {
    if fates != [] {
      RoundsPay(fates, c, m);
      MultiplesNeverLose(fates[Min(d, |fates|)..], c, d, m);
    }
  }

  /** A single round of everything is never late either. */
  lemma {:induction false} OneRoundNeverLoses(fates: seq<Fate>, c: Positive, d: Positive)
    requires |fates| <= d
    ensures Establish(fates, d).at <= Establish(fates, c).at
  {
    AtLeast(|fates|, c);
    RoundsPay(fates, c, |fates|);
    assert fates[..|fates|] == fates && fates[|fates|..] == [];
  }

  lemma {:induction false} AtLeast(n: nat, c: Positive)
    ensures Times(n, c) >= n
  {
    if n > 0 {
      AtLeast(n - 1, c);
    }
  }

  /** Rounds of any size find an answer exactly when retry in series does, and never later. */
  lemma {:induction false} HedgingNeverLoses(fates: seq<Fate>, c: Positive)
    ensures Establish(fates, c).Established? <==> Establish(fates, 1).Established?
    ensures Establish(fates, c).at <= Establish(fates, 1).at
  {
    EstablishedIff(fates, c);
    EstablishedIff(fates, 1);
    TimesIs(c, 1);
    MultiplesNeverLose(fates, 1, c, c);
  }

  lemma {:induction false} FreeRounds(fates: seq<Fate>, c: Positive, q: nat)
    requires Times(q, c) <= |fates|
    requires forall i :: 0 <= i < Times(q, c) ==> fates[i] == Fails(0)
    ensures Establish(fates, c).at == Establish(fates[Times(q, c)..], c).at
    decreases q
  {
    if q == 0 {
      assert fates[0..] == fates;
    } else {
      FirstAnswerIs(fates[..c]);
      var i := MaxCostIs(fates[..c]);
      FreeRounds(fates[c..], c, q - 1);
      assert fates[c..][Times(q - 1, c)..] == fates[Times(q, c)..];
    }
  }

  lemma {:induction false} Division(d: nat, c: Positive) returns (q: nat, r: nat)
    ensures d == Times(q, c) + r && r == d % c < c
  {
    q, r := d / c, d % c;
    TimesIs(q, c);
  }

  /** The larger round is held up by a failure the smaller one meets in the same round as the answer. */
  lemma {:induction false} HeldUp(a: nat, c: Positive, d: Positive, q: nat, r: nat) returns (fates: seq<Fate>)
    requires d == Times(q, c) + r && 0 < r < c && d < a
    ensures |fates| == a && Establish(fates, c).at < Establish(fates, d).at
  {
    var k := Times(q, c);
    fates := seq(a, i => if i < k then Fails(0) else if i < d then Fails(1) else Answers(0));
    FreeRounds(fates, c, q);
    FreeAnswer(fates[k..], c, r);
    CostlyRound(fates, d, k);
  }

  lemma {:induction false} FreeAnswer(fates: seq<Fate>, c: Positive, i: nat)
    requires i < c && i < |fates| && fates[i] == Answers(0)
    ensures Establish(fates, c).at == 0
  {
    var round := fates[..Min(c, |fates|)];
    assert round[i] == Answers(0);
    AnAnswerIsFound(round, i);
    var k := MinAnswerIs(round);
    assert NotQuicker(round, i, MinAnswer(round));
  }

  lemma {:induction false} CostlyRound(fates: seq<Fate>, d: Positive, k: nat)
    requires k < d < |fates| && fates[k] == Fails(1)
    requires forall i :: 0 <= i < d ==> fates[i].Fails?
    ensures Establish(fates, d).at > 0
  {
    FirstAnswerIs(fates[..d]);
    var i := MaxCostIs(fates[..d]);
    assert Cost(fates[..d][k]) == 1;
  }

  /** The wait in rounds of `d` is never longer than in rounds of `c`, whatever becomes of that many streams. */
  lemma {:induction false} WaitNeverLongerIff(attempts: nat, c: Positive, d: Positive)
    ensures (forall fates: seq<Fate> | |fates| == attempts :: Establish(fates, d).at <= Establish(fates, c).at)
            <==> d % c == 0 || attempts <= d
  {
    var q, r := Division(d, c);
    if r == 0 || attempts <= d {
      forall fates: seq<Fate> | |fates| == attempts ensures Establish(fates, d).at <= Establish(fates, c).at {
        if attempts <= d {
          OneRoundNeverLoses(fates, c, d);
        } else {
          MultiplesNeverLose(fates, c, d, q);
        }
      }
    } else {
      var fates := HeldUp(attempts, c, d, q, r);
    }
  }

  /** A dial in rounds of `d` takes no longer than one in rounds of `c` on streams of the same fates. */
  ghost predicate NoSlowerOn(fates: seq<Fate>, c: Positive, d: Positive) {
    forall small: seq<Script>, large: seq<Script>
      | FollowsSchedule(small, fates, c) && FollowsSchedule(large, fates, d) ::
      Clock(Results(true, large)).at <= Clock(Results(true, small)).at
  }

  lemma {:induction false} NoSlowerOnIs(fates: seq<Fate>, c: Positive, d: Positive)
    ensures NoSlowerOn(fates, c, d) <==> Establish(fates, d).at <= Establish(fates, c).at
  {
    var small := SomeTransportFollows(fates, c);
    var large := SomeTransportFollows(fates, d);
    forall s: seq<Script>, l: seq<Script> | FollowsSchedule(s, fates, c) && FollowsSchedule(l, fates, d)
      ensures Clock(Results(true, l)) == Establish(fates, d) && Clock(Results(true, s)) == Establish(fates, c)
    {
      DialTakesTheWait(s, fates, c);
      DialTakesTheWait(l, fates, d);
    }
  }

  /**
   Within a budget, a dial in rounds of `d` is never slower than one in rounds of `c`, whatever becomes
   of the streams, exactly when `d` is a multiple of `c` or one round of `d` is the whole budget.
  */
  lemma {:induction false} NeverSlowerIff(attempts: nat, c: Positive, d: Positive)
    ensures (forall fates: seq<Fate> | |fates| == attempts :: NoSlowerOn(fates, c, d))
            <==> d % c == 0 || attempts <= d
  {
    forall fates: seq<Fate> ensures NoSlowerOn(fates, c, d) <==> Establish(fates, d).at <= Establish(fates, c).at {
      NoSlowerOnIs(fates, c, d);
    }
    WaitNeverLongerIff(attempts, c, d);
  }

  /** And whatever the budget, exactly when `d` is a multiple of `c`. */
  lemma {:induction false} NeverSlowerOnAnyBudgetIff(c: Positive, d: Positive)
    ensures (forall fates: seq<Fate> :: NoSlowerOn(fates, c, d)) <==> d % c == 0
  {
    if d % c == 0 {
      forall fates: seq<Fate> ensures NoSlowerOn(fates, c, d) {
        NeverSlowerIff(|fates|, c, d);
      }
    } else {
      NeverSlowerIff(d + 1, c, d);
    }
  }

  // ---------------------------------------------------------------- when every failure costs the whole deadline

  /** Failures are silent: each is found out only when the deadline expires, and no answer takes longer. */
  predicate Silent(fates: seq<Fate>, deadline: nat) {
    forall i :: 0 <= i < |fates| ==>
      !fates[i].Refuses? && (fates[i].Fails? ==> fates[i].after == deadline) && fates[i].after <= deadline
  }

  /** How many rounds come before the one the stream at `k` is opened in. */
  function RoundsBefore(k: nat, c: Positive): nat { if k < c then 0 else 1 + RoundsBefore(k - c, c) }

  /** The stream at `i` gives the quickest answer of those from `lo` to `hi`. */
  ghost predicate QuickestIn(fates: seq<Fate>, lo: nat, hi: nat, i: nat) {
    && lo <= i < hi <= |fates| && fates[i].Answers?
    && forall j: nat :: lo <= j < hi ==> NotQuicker(fates, j, fates[i].after)
  }

  lemma {:induction false} QuickestShifts(fates: seq<Fate>, n: nat, lo: nat, hi: nat, i: nat)
    requires n <= |fates| && QuickestIn(fates[n..], lo, hi, i)
    ensures QuickestIn(fates, n + lo, n + hi, n + i)
  {
    var quickest := fates[n + i].after;
    forall j: nat | n + lo <= j < n + hi ensures NotQuicker(fates, j, quickest) {
      assert NotQuicker(fates[n..], j - n, quickest);
    }
  }

  /** A window that reaches further and misses only streams before the first answer has the quicker answer. */
  lemma {:induction false} WiderIsQuicker(fates: seq<Fate>, lo: nat, hi: nat, i: nat, lo': nat, hi': nat, i': nat)
    requires QuickestIn(fates, lo, hi, i) && QuickestIn(fates, lo', hi', i')
    requires lo' <= FirstAnswer(fates) && hi <= hi'
    ensures fates[i'].after <= fates[i].after
  {
    AnAnswerIsFound(fates, i);
    assert NotQuicker(fates, i, fates[i'].after);
  }

  lemma {:induction false} DropKeepsFirst(fates: seq<Fate>, n: nat)
    requires n <= FirstAnswer(fates)
    ensures FirstAnswer(fates[n..]) == FirstAnswer(fates) - n
    ensures !HasAnswer(fates[..n])
    decreases n
  {
    if n == 0 {
      assert fates[0..] == fates;
    } else {
      DropKeepsFirst(fates[1..], n - 1);
      assert fates[1..][n - 1..] == fates[n..];
      assert fates[..n][1..] == fates[1..][..n - 1];
    }
  }

  lemma {:induction false} TimesGrows(m: nat, n: nat, d: nat, e: nat)
    requires m <= n && d <= e
    ensures Times(m, d) <= Times(n, e)
  {
    if m > 0 {
      TimesGrows(m - 1, n - 1, d, e);
    }
  }

  lemma {:induction false} FailedRoundCosts(fates: seq<Fate>, n: nat, deadline: nat)
    requires Silent(fates, deadline) && 0 < n <= FirstAnswer(fates)
    ensures MaxCost(fates[..n]) == deadline
    ensures Silent(fates[n..], deadline)
  {
    FirstAnswerIs(fates);
    var i := MaxCostIs(fates[..n]);
    assert fates[i].Fails?;
  }

  lemma {:induction false} SilentRoundPasses(fates: seq<Fate>, c: Positive, deadline: nat)
    requires Silent(fates, deadline) && fates != [] && Min(c, |fates|) <= FirstAnswer(fates)
    ensures var rest := fates[Min(c, |fates|)..];
            && Establish(fates, c) == Later(deadline, Establish(rest, c))
            && FirstAnswer(rest) == FirstAnswer(fates) - Min(c, |fates|)
            && Silent(rest, deadline)
  {
    FailedRoundCosts(fates, Min(c, |fates|), deadline);
    DropKeepsFirst(fates, Min(c, |fates|));
  }

  lemma {:induction false} AnsweringRound(fates: seq<Fate>, c: Positive) returns (i: nat)
    requires FirstAnswer(fates) < Min(c, |fates|)
    ensures QuickestIn(fates, 0, Min(c, |fates|), i) && Establish(fates, c) == Established(fates[i].after)
  {
    var n := Min(c, |fates|);
    FirstAnswerIs(fates);
    AnAnswerIsFound(fates[..n], FirstAnswer(fates));
    i := MinAnswerIs(fates[..n]);
    forall j: nat | j < n ensures NotQuicker(fates, j, fates[i].after) {
      assert NotQuicker(fates[..n], j, MinAnswer(fates[..n]));
    }
  }

  /** When nothing ever answers, every round costs its deadline. */
  lemma {:induction false} SilentAndHopeless(fates: seq<Fate>, c: Positive, deadline: nat)
    requires Silent(fates, deadline) && FirstAnswer(fates) == |fates|
    ensures Establish(fates, c) == Exhausted(Times(RoundCount(|fates|, c), deadline))
    decreases |fates|
  {
    if fates != [] {
      SilentRoundPasses(fates, c, deadline);
      SilentAndHopeless(fates[Min(c, |fates|)..], c, deadline);
    }
  }

  /** The streams from `lo` to `hi` of `size` are the round of `c` that the stream at `k` is opened in. */
  predicate Window(k: nat, size: nat, c: Positive, lo: nat, hi: nat) {
    lo == Times(RoundsBefore(k, c), c) && lo <= k && hi == Min(lo + c, size)
  }

  lemma {:induction false} WindowShifts(k: nat, size: nat, c: Positive, lo: nat, hi: nat)
    requires c <= k && c <= size && Window(k - c, size - c, c, lo, hi)
    ensures Window(k, size, c, c + lo, c + hi)
  {
  }

  /** A deadline for every round before, and then stream `i`, the quickest of the round from `lo` to `hi`. */
  ghost predicate WaitsFor(fates: seq<Fate>, c: Positive, deadline: nat, lo: nat, hi: nat, i: nat) {
    && QuickestIn(fates, lo, hi, i)
    && Establish(fates, c) == Established(Times(RoundsBefore(FirstAnswer(fates), c), deadline) + fates[i].after)
    && Window(FirstAnswer(fates), |fates|, c, lo, hi)
  }

  lemma {:induction false} WaitsOneRoundMore(fates: seq<Fate>, c: Positive, deadline: nat, lo: nat, hi: nat, i: nat)
    requires Silent(fates, deadline) && c <= FirstAnswer(fates) < |fates|
    requires WaitsFor(fates[c..], c, deadline, lo, hi, i)
    ensures WaitsFor(fates, c, deadline, c + lo, c + hi, c + i)
  {
    var k := FirstAnswer(fates);
    SilentRoundPasses(fates, c, deadline);
    QuickestShifts(fates, c, lo, hi, i);
    WindowShifts(k, |fates|, c, lo, hi);
    OneRoundLater(k, c, deadline);
    assert fates[c..][i] == fates[c + i];
  }

  lemma {:induction false} WaitsForFirstRound(fates: seq<Fate>, c: Positive, deadline: nat) returns (i: nat)
    requires FirstAnswer(fates) < |fates| && FirstAnswer(fates) < c
    ensures WaitsFor(fates, c, deadline, 0, Min(c, |fates|), i)
  {
    i := AnsweringRound(fates, c);
    assert RoundsBefore(FirstAnswer(fates), c) == 0;
  }

  lemma {:induction false} SilentWait(fates: seq<Fate>, c: Positive, deadline: nat) returns (lo: nat, hi: nat, i: nat)
    requires Silent(fates, deadline) && HasAnswer(fates)
    ensures WaitsFor(fates, c, deadline, lo, hi, i)
    decreases |fates|
  {
    if FirstAnswer(fates) < c {
      i := WaitsForFirstRound(fates, c, deadline);
      lo, hi := 0, Min(c, |fates|);
    } else {
      SilentRoundPasses(fates, c, deadline);
      var first, last, j := SilentWait(fates[c..], c, deadline);
      WaitsOneRoundMore(fates, c, deadline, first, last, j);
      lo, hi, i := c + first, c + last, c + j;
    }
  }

  lemma {:induction false} OneRoundLater(k: nat, c: Positive, deadline: nat)
    requires k >= c
    ensures Times(RoundsBefore(k, c), deadline) == deadline + Times(RoundsBefore(k - c, c), deadline)
    ensures Times(RoundsBefore(k, c), c) == c + Times(RoundsBefore(k - c, c), c)
  {
  }

  lemma {:induction false} FewerRoundsBefore(k: nat, c: Positive, d: Positive)
    requires c <= d
    ensures RoundsBefore(k, d) <= RoundsBefore(k, c)
  {
    if k >= d {
      FewerRoundsBefore(k - d, c, d);
      LessIsEarlier(k - d, k - c, c);
    }
  }

  lemma {:induction false} LessIsEarlier(j: nat, k: nat, c: Positive)
    requires j <= k
    ensures RoundsBefore(j, c) <= RoundsBefore(k, c)
  {
    if j >= c {
      LessIsEarlier(j - c, k - c, c);
    }
  }

  lemma {:induction false} FewerRounds(a: nat, b: nat, c: Positive, d: Positive)
    requires c <= d && b <= a
    ensures RoundCount(b, d) <= RoundCount(a, c)
    decreases a
  {
    if b > 0 {
      FewerRounds(SaturatingSub(a, c), SaturatingSub(b, d), c, d);
    }
  }

  /** The wait of the larger rounds, given what both wait for. */
  lemma {:induction false} WiderWaitsLess(fates: seq<Fate>, c: Positive, d: Positive, deadline: nat,
        lo: nat, hi: nat, i: nat, lo': nat, hi': nat, i': nat)
    requires c <= d && Silent(fates, deadline)
    requires WaitsFor(fates, c, deadline, lo, hi, i) && WaitsFor(fates, d, deadline, lo', hi', i')
    ensures Establish(fates, d).at <= Establish(fates, c).at
  {
    var k := FirstAnswer(fates);
    var p, q := RoundsBefore(k, c), RoundsBefore(k, d);
    FewerRoundsBefore(k, c, d);
    if p == q {
      TimesGrows(p, p, c, d);
      WiderIsQuicker(fates, lo, hi, i, lo', hi', i');
    } else {
      TimesGrows(q + 1, p, deadline, deadline);
      assert fates[i'].after <= deadline;
    }
  }

  /**
   When failures are silent, larger rounds never make the wallet wait longer, whether or not either
   size divides the budget; and they end a hopeless dial no later.
  */
  lemma {:induction false} SilentHedgingIsMonotone(fates: seq<Fate>, c: Positive, d: Positive, deadline: nat)
    requires Silent(fates, deadline) && c <= d
    ensures Establish(fates, d).Established? <==> Establish(fates, c).Established?
    ensures Establish(fates, d).at <= Establish(fates, c).at
  {
    EstablishedIff(fates, c);
    EstablishedIff(fates, d);
    if HasAnswer(fates) {
      var lo, hi, i := SilentWait(fates, c, deadline);
      var lo', hi', i' := SilentWait(fates, d, deadline);
      WiderWaitsLess(fates, c, d, deadline, lo, hi, i, lo', hi', i');
    } else {
      SilentAndHopeless(fates, c, deadline);
      SilentAndHopeless(fates, d, deadline);
      FewerRounds(|fates|, |fates|, c, d);
      TimesGrows(RoundCount(|fates|, d), RoundCount(|fates|, c), deadline, deadline);
    }
  }
}
