/**
 The listening half: what serving one stream does and counts, and the accept loop with its cap over
 any number of streams at once.
*/
module Server {
  import opened Wrappers
  import opened Handshake
  import Pump
  import opened Metrics
  import Splice

  // ---------------------------------------------------------------- serving one stream

  const FIRST_CHUNK: nat := 8192

  /**
   What happens to a stream beyond its header: the first read, the upstream, the first write and how much
   of it gets out should it fail, and what passes while it is spliced. `idle` is the reaper's deadline.
  */
  datatype Visit = Visit(
    arrived: nat, reachable: bool, firstWritten: bool, partial: nat,
    idle: Splice.Duration, traffic: seq<Splice.Event>, last: Splice.Ended)

  /** The pumps end a splice by closing or failing. */
  predicate PumpsEnd(v: Visit) { v.last.Closed? || v.last.Failed? }

  /** How much of the request is in the first read; nothing by the deadline, an end of stream and an error are alike. */
  function FirstRead(afterHeader: seq<byte>, v: Visit): nat {
    Min(Min(v.arrived, FIRST_CHUNK), |afterHeader|)
  }

  /** It is the longest that has arrived, fits the chunk and is there, so a request that has arrived is never missed. */
  lemma {:induction false} FirstReadIs(afterHeader: seq<byte>, v: Visit, n: nat)
    ensures n <= FirstRead(afterHeader, v) <==> n <= v.arrived && n <= 8192 && n <= |afterHeader|
    ensures FirstRead(afterHeader, v) == 0 <==> v.arrived == 0 || afterHeader == []
  {
  }

  /** What of the request reaches an upstream that is there: all of it, or what got out before writing it failed. */
  function FirstSent(opening: seq<byte>, v: Visit): seq<byte> {
    if v.firstWritten then opening else opening[..Min(v.partial, |opening|)]
  }

  /** What one visit counts, in order, given how the handshake went and how much was read after it. */
  function MarksOf(handshake: Result<Header, HandshakeError>, read: nat, v: Visit, ended: Splice.Ended): seq<Mark> {
    if handshake.Err? then [StreamRejected(ReasonOf(handshake.error))]
    else [StreamAccepted] + RequestMarks(read, v, ended)
  }

  function RequestMarks(read: nat, v: Visit, ended: Splice.Ended): seq<Mark> {
    if read == 0 then [StreamWithoutRequest]
    else if !v.reachable then [UpstreamUnreachable]
    else [UpstreamConnected] + RelayMarks(v, ended)
  }

  function RelayMarks(v: Visit, ended: Splice.Ended): seq<Mark> {
    if v.firstWritten then [Finished(EndingOf(ended)), GuardDropped] else [GuardDropped]
  }

  /** The outcome of `accept` on a stream with this much arriving. */
  function Accepted(arriving: seq<byte>, tail: Tail, writable: bool): Result<Header, HandshakeError> {
    var header := HeaderOf(arriving, tail);
    if header.Ok? && header.value.echoRequested && !writable then Err(Write) else header
  }

  /** What is left of a stream once a header has been read from it. */
  function Rest(arriving: seq<byte>): seq<byte> { arriving[Min(HEADER_LEN, |arriving|)..] }

  /**
   The upstream is there: write it the first chunk, and splice under the reaper alone. The guard goes
   either way.
  */
  method Relay(opening: seq<byte>, upstream: Pump.Sink, metrics: ServerMetrics, v: Visit) returns (ended: Splice.Ended)
    requires PumpsEnd(v)
    modifies upstream, metrics
    ensures v.firstWritten ==> Splice.EndsAs(Splice.Deadlines(None, Some(v.idle)), v.traffic, v.last, ended)
    ensures metrics.Read() == MarkedAll(old(metrics.Read()), RelayMarks(v, ended))
    ensures upstream.bytes == old(upstream.bytes) +
              if v.firstWritten then opening else opening[..Min(v.partial, |opening|)]
  {
    ghost var before := metrics.Read();
    upstream.bytes := upstream.bytes + if v.firstWritten then opening else opening[..Min(v.partial, |opening|)];
    ended := v.last;
    if v.firstWritten {
      var transfer, seen;
      transfer, ended, seen := Splice.Run(Splice.Deadlines(None, Some(v.idle)), v.traffic, v.last);
      metrics.Finish(ended);
      TwoMarks(before, Finished(EndingOf(ended)), GuardDropped);
    } else {
      OneMark(before, GuardDropped);
    }
    metrics.DropGuard();
  }

  /** The stream has introduced itself: wait for a request, and find the upstream for it. */
  method ServeRequest(stream: Stream, upstream: Pump.Sink, metrics: ServerMetrics, v: Visit)
    returns (ended: Splice.Ended)
    requires PumpsEnd(v)
    modifies stream, upstream, metrics
    ensures v.firstWritten && v.reachable && FirstRead(old(stream.incoming), v) > 0 ==>
              Splice.EndsAs(Splice.Deadlines(None, Some(v.idle)), v.traffic, v.last, ended)
    ensures metrics.Read() == MarkedAll(old(metrics.Read()), RequestMarks(FirstRead(old(stream.incoming), v), v, ended))
    ensures stream.incoming == old(stream.incoming)[FirstRead(old(stream.incoming), v)..]
    ensures upstream.bytes == old(upstream.bytes) +
              if v.reachable then FirstSent(old(stream.incoming)[..FirstRead(old(stream.incoming), v)], v) else []
  {
    ghost var before := metrics.Read();
    var read := FirstRead(stream.incoming, v);
    var opening := stream.incoming[..read];
    stream.incoming := stream.incoming[read..];
    ended := v.last;
    if read == 0 {
      metrics.WithoutRequest();
      OneMark(before, StreamWithoutRequest);
      return;
    }
    if !v.reachable {
      metrics.Unreachable();
      OneMark(before, UpstreamUnreachable);
      return;
    }
    metrics.Connected();
    ended := Relay(opening, upstream, metrics, v);
    MarkFirst(before, UpstreamConnected, RelayMarks(v, ended));
  }

  /**
   Serve one accepted stream up to the splice, and splice it. The upstream is written to only when the
   stream has introduced itself, carried a request and found the upstream there, and what it is given is
   the bytes right after the header, as far as writing them got.
  */
  method Serve(stream: Stream, upstream: Pump.Sink, metrics: ServerMetrics, v: Visit) returns (ended: Splice.Ended)
    requires PumpsEnd(v)
    modifies stream, upstream, metrics
    ensures var handshake := Accepted(old(stream.incoming), stream.tail, stream.writable);
            var rest := Rest(old(stream.incoming));
            && metrics.Read() == MarkedAll(old(metrics.Read()), MarksOf(handshake, FirstRead(rest, v), v, ended))
            && (handshake.Ok? && v.firstWritten && v.reachable && FirstRead(rest, v) > 0 ==>
                  Splice.EndsAs(Splice.Deadlines(None, Some(v.idle)), v.traffic, v.last, ended))
    ensures var handshake := Accepted(old(stream.incoming), stream.tail, stream.writable);
            var rest := Rest(old(stream.incoming));
            && stream.incoming == (if handshake.Ok? then rest[FirstRead(rest, v)..] else rest)
            && upstream.bytes == old(upstream.bytes) +
                 if handshake.Ok? && v.reachable then FirstSent(rest[..FirstRead(rest, v)], v) else []
  {
    ghost var before := metrics.Read();
    var handshake := Handshake.Accept(stream);
    if handshake.Err? {
      metrics.Reject(handshake.error);
      OneMark(before, StreamRejected(ReasonOf(handshake.error)));
      return v.last;
    }
    metrics.Accept();
    ghost var read := FirstRead(stream.incoming, v);
    ended := ServeRequest(stream, upstream, metrics, v);
    MarkFirst(before, StreamAccepted, RequestMarks(read, v, ended));
  }

  /** A quiet upstream is never taken for a stalled one. */
  lemma {:induction false} ServedSplicesNeverStall(v: Visit, ended: Splice.Ended)
    requires PumpsEnd(v) && Splice.EndsAs(Splice.Deadlines(None, Some(v.idle)), v.traffic, v.last, ended)
    ensures !ended.Stalled? && (ended.Idle? ==> ended == Splice.Idle(v.idle))
  {
  }

  // ---------------------------------------------------------------- any number of streams at once

  /**
   Where one admitted stream's task is. The guard of the in-flight gauge is held from `Opening` to
   `Guarded`, the permit until `Gone`.
  */
  datatype Stage = Shaking | Waiting | Connecting | Opening | Splicing | Guarded | Leaving | Gone

  /** Tasks dropped from outside, by a shutdown whose grace ran out or by unwinding, by what they were waiting for. */
  datatype Cut = Cut(handshakes: nat, requests: nat, connects: nat, firstWrites: nat, splices: nat)

  /**
   `asked` is how many carried a request and `written` how many had it written upstream; `rejections` and
   `endings` are what every handshake that failed and every splice came to.
  */
  datatype ServerState = ServerState(
    available: nat, arrived: nat, tasks: seq<Stage>, ledger: Ledger, firstWriteFailed: nat, cut: Cut,
    asked: nat, written: nat, rejections: seq<HandshakeError>, endings: seq<Splice.Ended>)

  /** Listening, with nothing accepted yet. */
  predicate Open(h: ServerState, maxStreams: nat) {
    && h.available == maxStreams && h.arrived == 0 && h.tasks == [] && Blank(h.ledger) && h.firstWriteFailed == 0
    && h.cut.handshakes == 0 && h.cut.requests == 0 && h.cut.connects == 0
    && h.cut.firstWrites == 0 && h.cut.splices == 0
    && h.asked == 0 && h.written == 0 && h.rejections == [] && h.endings == []
  }

  datatype Event =
    | Arrives
    | Shakes(t: nat, error: Option<HandshakeError>)
    | Reads(t: nat, request: bool)
    | Connects(t: nat, reachable: bool)
    | WritesFirst(t: nat, written: bool)
    | Ends(t: nat, ended: Splice.Ended)
    | DropsGuard(t: nat)
    | ReleasesPermit(t: nat)
    | CutShort(t: nat)

  predicate In(h: ServerState, t: nat, stage: Stage) { t < |h.tasks| && h.tasks[t] == stage }

  /** A task goes to another stage, counting something on the way. */
  function Moves(h: ServerState, t: nat, stage: Stage, m: Option<Mark>): ServerState
    requires t < |h.tasks|
  {
    h.(tasks := h.tasks[t := stage], ledger := if m.Some? then Marked(h.ledger, m.value) else h.ledger)
  }

  function Admit(h: ServerState): ServerState {
    if h.available > 0
    then h.(available := h.available - 1, arrived := h.arrived + 1, tasks := h.tasks + [Shaking])
    else h.(arrived := h.arrived + 1, ledger := Marked(h.ledger, StreamShed))
  }

  function Shake(h: ServerState, t: nat, error: Option<HandshakeError>): ServerState
    requires In(h, t, Shaking)
  {
    if error.Some?
    then Moves(h, t, Leaving, Some(StreamRejected(ReasonOf(error.value)))).(rejections := h.rejections + [error.value])
    else Moves(h, t, Waiting, Some(StreamAccepted))
  }

  function ReadRequest(h: ServerState, t: nat, request: bool): ServerState
    requires In(h, t, Waiting)
  {
    if request then Moves(h, t, Connecting, None).(asked := h.asked + 1)
    else Moves(h, t, Leaving, Some(StreamWithoutRequest))
  }

  function Connect(h: ServerState, t: nat, reachable: bool): ServerState
    requires In(h, t, Connecting)
  {
    if reachable then Moves(h, t, Opening, Some(UpstreamConnected)) else Moves(h, t, Leaving, Some(UpstreamUnreachable))
  }

  function WriteFirst(h: ServerState, t: nat, written: bool): ServerState
    requires In(h, t, Opening)
  {
    if written then Moves(h, t, Splicing, None).(written := h.written + 1)
    else Moves(h, t, Guarded, None).(firstWriteFailed := h.firstWriteFailed + 1)
  }

  function Finish(h: ServerState, t: nat, ended: Splice.Ended): ServerState
    requires In(h, t, Splicing)
  {
    Moves(h, t, Guarded, Some(Finished(EndingOf(ended)))).(endings := h.endings + [ended])
  }

  function DropGuard(h: ServerState, t: nat): ServerState
    requires In(h, t, Guarded)
  {
    Moves(h, t, Leaving, Some(GuardDropped))
  }

  function Release(h: ServerState, t: nat): ServerState
    requires In(h, t, Leaving)
  {
    Moves(h, t, Gone, None).(available := h.available + 1)
  }

  function CutTask(h: ServerState, t: nat): ServerState
    requires t < |h.tasks|
  {
    match h.tasks[t]
    case Shaking => Moves(h, t, Leaving, None).(cut := h.cut.(handshakes := h.cut.handshakes + 1))
    case Waiting => Moves(h, t, Leaving, None).(cut := h.cut.(requests := h.cut.requests + 1))
    case Connecting => Moves(h, t, Leaving, None).(cut := h.cut.(connects := h.cut.connects + 1))
    case Opening => Moves(h, t, Guarded, None).(cut := h.cut.(firstWrites := h.cut.firstWrites + 1))
    case Splicing => Moves(h, t, Guarded, None).(cut := h.cut.(splices := h.cut.splices + 1))
    case _ => h
  }

  /** An event that cannot happen where it comes does nothing. */
  function Happens(h: ServerState, e: Event): ServerState {
    match e
    case Arrives => Admit(h)
    case Shakes(t, error) => if In(h, t, Shaking) then Shake(h, t, error) else h
    case Reads(t, request) => if In(h, t, Waiting) then ReadRequest(h, t, request) else h
    case Connects(t, reachable) => if In(h, t, Connecting) then Connect(h, t, reachable) else h
    case WritesFirst(t, written) => if In(h, t, Opening) then WriteFirst(h, t, written) else h
    case Ends(t, ended) => if In(h, t, Splicing) then Finish(h, t, ended) else h
    case DropsGuard(t) => if In(h, t, Guarded) then DropGuard(h, t) else h
    case ReleasesPermit(t) => if In(h, t, Leaving) then Release(h, t) else h
    case CutShort(t) => if t < |h.tasks| then CutTask(h, t) else h
  }

  function After(start: ServerState, events: seq<Event>): ServerState {
    if events == [] then start else Happens(After(start, events[..|events| - 1]), events[|events| - 1])
  }

  /** The permits for streams served at once. */
  class Capacity {
    var available: nat

    constructor (maxStreams: nat)
      ensures available == maxStreams
    {
      available := maxStreams;
    }

    method TryAcquire() returns (permit: bool)
      modifies this
      ensures permit <==> old(available) > 0
      ensures available == if permit then old(available) - 1 else old(available)
    {
      permit := available > 0;
      if permit {
        available := available - 1;
      }
    }
  }

  /** A stream reaches the accept loop, which takes a permit for it or sheds it, and waits for nothing. */
  method Arrive(capacity: Capacity, metrics: ServerMetrics, ghost h: ServerState) returns (admitted: bool)
    requires capacity.available == h.available && metrics.Read() == h.ledger
    modifies capacity, metrics
    ensures capacity.available == Admit(h).available && metrics.Read() == Admit(h).ledger
    ensures Admit(h).tasks == if admitted then h.tasks + [Shaking] else h.tasks
  {
    admitted := capacity.TryAcquire();
    if !admitted {
      metrics.DropOverCapacity();
    }
  }

  function At(tasks: seq<Stage>, stage: Stage): nat { multiset(tasks)[stage] }

  /** How many tasks are at each stage. */
  datatype Census = Census(
    shaking: int, waiting: int, connecting: int, opening: int, splicing: int, guarded: int, leaving: int, gone: int)

  function CensusOf(tasks: seq<Stage>): Census {
    Census(At(tasks, Shaking), At(tasks, Waiting), At(tasks, Connecting), At(tasks, Opening),
           At(tasks, Splicing), At(tasks, Guarded), At(tasks, Leaving), At(tasks, Gone))
  }

  /** Every count equals the stages it feeds plus the ways out of them. */
  ghost predicate Balanced(h: ServerState, c: Census, maxStreams: nat) {
    && |h.tasks| == c.shaking + c.waiting + c.connecting + c.opening + c.splicing + c.guarded + c.leaving + c.gone
    && |h.tasks| - c.gone + h.available == maxStreams
    && h.arrived == h.ledger.shed + |h.tasks|
    && |h.tasks| == c.shaking + h.ledger.rejected.Total() + h.cut.handshakes + h.ledger.accepted
    && h.ledger.accepted == c.waiting + h.ledger.withoutRequest + h.cut.requests + h.asked
    && h.asked == c.connecting + h.ledger.upstreamFailures + h.cut.connects + h.ledger.connected
    && h.ledger.connected == c.opening + h.firstWriteFailed + h.cut.firstWrites + h.written
    && h.written == c.splicing + h.ledger.ended.Total() + h.cut.splices
    && h.ledger.inFlight == c.opening + c.splicing + c.guarded
  }

  lemma {:induction false} MoveCounts(tasks: seq<Stage>, t: nat, to: Stage, s: Stage)
    requires t < |tasks|
    ensures At(tasks[t := to], s) == At(tasks, s) - (if s == tasks[t] then 1 else 0) + (if s == to then 1 else 0)
  {
    assert tasks[t] in multiset(tasks);
  }

  function Shifted(c: Census, from: Stage, to: Stage): Census {
    Census(c.shaking + Shift(Shaking, from, to), c.waiting + Shift(Waiting, from, to),
           c.connecting + Shift(Connecting, from, to), c.opening + Shift(Opening, from, to),
           c.splicing + Shift(Splicing, from, to), c.guarded + Shift(Guarded, from, to),
           c.leaving + Shift(Leaving, from, to), c.gone + Shift(Gone, from, to))
  }

  function Shift(s: Stage, from: Stage, to: Stage): int { (if s == to then 1 else 0) - if s == from then 1 else 0 }

  lemma {:induction false} MoveShifts(tasks: seq<Stage>, t: nat, to: Stage)
    requires t < |tasks|
    ensures CensusOf(tasks[t := to]) == Shifted(CensusOf(tasks), tasks[t], to)
  {
    MoveCounts(tasks, t, to, Shaking);
    MoveCounts(tasks, t, to, Waiting);
    MoveCounts(tasks, t, to, Connecting);
    MoveCounts(tasks, t, to, Opening);
    MoveCounts(tasks, t, to, Splicing);
    MoveCounts(tasks, t, to, Guarded);
    MoveCounts(tasks, t, to, Leaving);
    MoveCounts(tasks, t, to, Gone);
  }

  ghost predicate Sound(h: ServerState, maxStreams: nat) { Balanced(h, CensusOf(h.tasks), maxStreams) }

  lemma {:induction false} AdmittingBalances(h: ServerState, c: Census, maxStreams: nat)
    requires Balanced(h, c, maxStreams)
    ensures Balanced(Admit(h), if h.available > 0 then c.(shaking := c.shaking + 1) else c, maxStreams)
  {
  }

  lemma {:induction false} ShakingBalances(h: ServerState, c: Census, t: nat,
      error: Option<HandshakeError>, maxStreams: nat)
    requires Balanced(h, c, maxStreams) && In(h, t, Shaking)
    ensures Balanced(Shake(h, t, error), Shifted(c, Shaking, if error.Some? then Leaving else Waiting), maxStreams)
  {
  }

  lemma {:induction false} ReadingBalances(h: ServerState, c: Census, t: nat, request: bool, maxStreams: nat)
    requires Balanced(h, c, maxStreams) && In(h, t, Waiting)
    ensures Balanced(ReadRequest(h, t, request),
                     Shifted(c, Waiting, if request then Connecting else Leaving), maxStreams)
  {
  }

  lemma {:induction false} ConnectingBalances(h: ServerState, c: Census, t: nat, reachable: bool, maxStreams: nat)
    requires Balanced(h, c, maxStreams) && In(h, t, Connecting)
    ensures Balanced(Connect(h, t, reachable),
                     Shifted(c, Connecting, if reachable then Opening else Leaving), maxStreams)
  {
  }

  lemma {:induction false} WritingBalances(h: ServerState, c: Census, t: nat, written: bool, maxStreams: nat)
    requires Balanced(h, c, maxStreams) && In(h, t, Opening)
    ensures Balanced(WriteFirst(h, t, written), Shifted(c, Opening, if written then Splicing else Guarded), maxStreams)
  {
  }

  lemma {:induction false} FinishingBalances(h: ServerState, c: Census, t: nat, ended: Splice.Ended, maxStreams: nat)
    requires Balanced(h, c, maxStreams) && In(h, t, Splicing)
    ensures Balanced(Finish(h, t, ended), Shifted(c, Splicing, Guarded), maxStreams)
  {
  }

  lemma {:induction false} DroppingBalances(h: ServerState, c: Census, t: nat, maxStreams: nat)
    requires Balanced(h, c, maxStreams) && In(h, t, Guarded)
    ensures Balanced(DropGuard(h, t), Shifted(c, Guarded, Leaving), maxStreams)
  {
  }

  lemma {:induction false} ReleasingBalances(h: ServerState, c: Census, t: nat, maxStreams: nat)
    requires Balanced(h, c, maxStreams) && In(h, t, Leaving)
    ensures Balanced(Release(h, t), Shifted(c, Leaving, Gone), maxStreams)
  {
  }

  lemma {:induction false} EarlyCutBalances(h: ServerState, c: Census, t: nat, maxStreams: nat)
    requires Balanced(h, c, maxStreams) && (In(h, t, Shaking) || In(h, t, Waiting) || In(h, t, Connecting))
    ensures Balanced(CutTask(h, t), Shifted(c, h.tasks[t], CutTask(h, t).tasks[t]), maxStreams)
  {
  }

  lemma {:induction false} LateCutBalances(h: ServerState, c: Census, t: nat, maxStreams: nat)
    requires Balanced(h, c, maxStreams) && (In(h, t, Opening) || In(h, t, Splicing))
    ensures Balanced(CutTask(h, t), Shifted(c, h.tasks[t], CutTask(h, t).tasks[t]), maxStreams)
  {
  }

  lemma {:induction false} OneMoreShaking(tasks: seq<Stage>)
    ensures var c := CensusOf(tasks); CensusOf(tasks + [Shaking]) == c.(shaking := c.shaking + 1)
  {
    assert multiset(tasks + [Shaking]) == multiset(tasks) + multiset{Shaking};
  }

  lemma {:induction false} ArrivalIsSound(h: ServerState, maxStreams: nat)
    requires Sound(h, maxStreams)
    ensures Sound(Admit(h), maxStreams)
  {
    OneMoreShaking(h.tasks);
    AdmittingBalances(h, CensusOf(h.tasks), maxStreams);
  }

  /** The books balance at `r` once task `t` is recounted where it has got to. */
  ghost predicate Recounted(h: ServerState, r: ServerState, t: nat, maxStreams: nat) {
    && t < |h.tasks| && t < |r.tasks|
    && Balanced(r, Shifted(CensusOf(h.tasks), h.tasks[t], r.tasks[t]), maxStreams)
  }

  lemma {:induction false} HandshakeMoves(h: ServerState, e: Event, maxStreams: nat)
    requires Sound(h, maxStreams) && (e.Shakes? || e.Reads?) && Happens(h, e) != h
    ensures Recounted(h, Happens(h, e), e.t, maxStreams)
  {
    var c := CensusOf(h.tasks);
    match e
    case Shakes(t, error) => ShakingBalances(h, c, t, error, maxStreams);
    case Reads(t, request) => ReadingBalances(h, c, t, request, maxStreams);
  }

  lemma {:induction false} UpstreamMoves(h: ServerState, e: Event, maxStreams: nat)
    requires Sound(h, maxStreams) && (e.Connects? || e.WritesFirst?) && Happens(h, e) != h
    ensures Recounted(h, Happens(h, e), e.t, maxStreams)
  {
    var c := CensusOf(h.tasks);
    match e
    case Connects(t, reachable) => ConnectingBalances(h, c, t, reachable, maxStreams);
    case WritesFirst(t, written) => WritingBalances(h, c, t, written, maxStreams);
  }

  lemma {:induction false} CutMoves(h: ServerState, t: nat, maxStreams: nat)
    requires Sound(h, maxStreams) && t < |h.tasks| && CutTask(h, t) != h
    ensures Recounted(h, CutTask(h, t), t, maxStreams)
  {
    if h.tasks[t].Opening? || h.tasks[t].Splicing? {
      LateCutBalances(h, CensusOf(h.tasks), t, maxStreams);
    } else {
      EarlyCutBalances(h, CensusOf(h.tasks), t, maxStreams);
    }
  }

  lemma {:induction false} EndingMoves(h: ServerState, e: Event, maxStreams: nat)
    requires Sound(h, maxStreams) && e.Ends? && Happens(h, e) != h
    ensures Recounted(h, Happens(h, e), e.t, maxStreams)
  {
    FinishingBalances(h, CensusOf(h.tasks), e.t, e.ended, maxStreams);
  }

  lemma {:induction false} ReleasingMoves(h: ServerState, e: Event, maxStreams: nat)
    requires Sound(h, maxStreams) && (e.DropsGuard? || e.ReleasesPermit?) && Happens(h, e) != h
    ensures Recounted(h, Happens(h, e), e.t, maxStreams)
  {
    if e.DropsGuard? {
      DroppingBalances(h, CensusOf(h.tasks), e.t, maxStreams);
    } else {
      ReleasingBalances(h, CensusOf(h.tasks), e.t, maxStreams);
    }
  }

  lemma {:induction false} OneTaskMoves(h: ServerState, e: Event)
    requires !e.Arrives? && Happens(h, e) != h
    ensures e.t < |h.tasks| == |Happens(h, e).tasks|
    ensures Happens(h, e).tasks == h.tasks[e.t := Happens(h, e).tasks[e.t]]
  {
  }

  lemma {:induction false} HappensKeepsSound(h: ServerState, e: Event, maxStreams: nat)
    requires Sound(h, maxStreams)
    ensures Sound(Happens(h, e), maxStreams)
  {
    var r := Happens(h, e);
    if e.Arrives? {
      ArrivalIsSound(h, maxStreams);
    } else if r != h {
      OneTaskMoves(h, e);
      if e.Shakes? || e.Reads? {
        HandshakeMoves(h, e, maxStreams);
      } else if e.Connects? || e.WritesFirst? {
        UpstreamMoves(h, e, maxStreams);
      } else if e.CutShort? {
        CutMoves(h, e.t, maxStreams);
      } else if e.Ends? {
        EndingMoves(h, e, maxStreams);
      } else {
        ReleasingMoves(h, e, maxStreams);
      }
      MoveShifts(h.tasks, e.t, r.tasks[e.t]);
    }
  }

  /** The books balance before anything has arrived. */
  lemma {:induction false} OpenIsSound(start: ServerState, maxStreams: nat)
    requires Open(start, maxStreams)
    ensures Sound(start, maxStreams) && LabelledRight(start)
  {
  }

  /** And so in every state any number of streams can reach from there, in any order. */
  lemma {:induction false} EveryRunIsSound(start: ServerState, maxStreams: nat, events: seq<Event>)
    requires Sound(start, maxStreams)
    ensures Sound(After(start, events), maxStreams)
  {
    if events != [] {
      var before, e := events[..|events| - 1], events[|events| - 1];
      EveryRunIsSound(start, maxStreams, before);
      HappensKeepsSound(After(start, before), e, maxStreams);
    }
  }

  /**
   The cap holds: never more upstream connections than permits, and a stream is shed exactly when
   every permit is in the hands of a task that has not gone.
  */
  lemma {:induction false} NeverOverTheCap(start: ServerState, maxStreams: nat, events: seq<Event>)
    requires Sound(start, maxStreams)
    ensures var h := After(start, events);
            var holding := |h.tasks| - At(h.tasks, Gone);
            && 0 <= h.ledger.inFlight <= holding <= maxStreams
            && (Admit(h).ledger.shed == h.ledger.shed + 1 <==> holding == maxStreams)
  {
    EveryRunIsSound(start, maxStreams, events);
  }

  /**
   Once every task has gone, the counters alone tell the story: the gauge is at zero, the permits are
   back, and, short of what was cut, what was accepted failed at some step or was spliced.
  */
  lemma {:induction false} QuietServerBalances(start: ServerState, maxStreams: nat, events: seq<Event>)
    requires Sound(start, maxStreams)
    requires At(After(start, events).tasks, Gone) == |After(start, events).tasks|
    ensures var h := After(start, events);
            && h.available == maxStreams && h.ledger.inFlight == 0
            && h.arrived == h.ledger.shed + h.ledger.rejected.Total() + h.ledger.accepted + h.cut.handshakes
            && h.ledger.accepted == h.ledger.withoutRequest + h.cut.requests + h.asked
            && h.asked == h.ledger.upstreamFailures + h.cut.connects + h.ledger.connected
            && h.ledger.connected == h.firstWriteFailed + h.cut.firstWrites + h.written
            && h.written == h.ledger.ended.Total() + h.cut.splices
  {
    EveryRunIsSound(start, maxStreams, events);
  }

  // ---------------------------------------------------------------- labels

  /** Every rejection and every ending is counted under its own label. */
  ghost predicate LabelledRight(h: ServerState) {
    && (forall kind :: ShownFor(h.ledger.rejected, kind) == RejectedFor(h.rejections, kind))
    && (forall kind :: ShownEnding(h.ledger.ended, kind) == EndedUnder(h.endings, kind))
  }

  lemma {:induction false} RejectingLabelsRight(h: ServerState, t: nat, error: HandshakeError)
    requires LabelledRight(h) && In(h, t, Shaking)
    ensures LabelledRight(Shake(h, t, Some(error)))
  {
    assert (h.rejections + [error])[..|h.rejections|] == h.rejections;
    forall kind ensures ShownFor(h.ledger.rejected.Bumped(ReasonOf(error)), kind)
                        == RejectedFor(h.rejections + [error], kind)
    {
      ReasonByLabel(h.ledger.rejected, error, kind);
    }
  }

  lemma {:induction false} FinishingLabelsRight(h: ServerState, t: nat, ended: Splice.Ended)
    requires LabelledRight(h) && In(h, t, Splicing)
    ensures LabelledRight(Finish(h, t, ended))
  {
    assert (h.endings + [ended])[..|h.endings|] == h.endings;
    forall kind ensures ShownEnding(h.ledger.ended.Bumped(EndingOf(ended)), kind)
                        == EndedUnder(h.endings + [ended], kind)
    {
      EndingByLabel(h.ledger.ended, ended, kind);
    }
  }

  lemma {:induction false} TheRestLabelsNothing(h: ServerState, e: Event)
    requires !e.Ends? && !(e.Shakes? && e.error.Some?)
    ensures var r := Happens(h, e);
            && r.ledger.rejected == h.ledger.rejected && r.ledger.ended == h.ledger.ended
            && r.rejections == h.rejections && r.endings == h.endings
  {
  }

  lemma {:induction false} EveryLabelIsExact(start: ServerState, events: seq<Event>)
    requires LabelledRight(start)
    ensures LabelledRight(After(start, events))
  {
    if events != [] {
      var h, e := After(start, events[..|events| - 1]), events[|events| - 1];
      EveryLabelIsExact(start, events[..|events| - 1]);
      if e.Ends? {
        if In(h, e.t, Splicing) {
          FinishingLabelsRight(h, e.t, e.ended);
        }
      } else if e.Shakes? && e.error.Some? {
        if In(h, e.t, Shaking) {
          RejectingLabelsRight(h, e.t, e.error.value);
        }
      } else {
        TheRestLabelsNothing(h, e);
      }
    }
  }

  // ---------------------------------------------------------------- shutting down

  /** What is left to happen once nothing is accepted and nobody is waited for. */
  predicate WindsUp(e: Event) { e.CutShort? || e.DropsGuard? || e.ReleasesPermit? }

  lemma {:induction false} OneWindsUp(h: ServerState, t: nat)
    requires t < |h.tasks|
    ensures Happens(Happens(Happens(h, CutShort(t)), DropsGuard(t)), ReleasesPermit(t)).tasks == h.tasks[t := Gone]
  {
    var cut := Happens(h, CutShort(t));
    assert cut.tasks == h.tasks[t := cut.tasks[t]];
    assert cut.tasks[t].Guarded? || cut.tasks[t].Leaving? || cut.tasks[t].Gone?;
    var dropped := Happens(cut, DropsGuard(t));
    assert dropped.tasks == h.tasks[t := dropped.tasks[t]] && !dropped.tasks[t].Guarded?;
  }

  lemma {:induction false} AfterSnoc(start: ServerState, events: seq<Event>, e: Event)
    ensures After(start, events + [e]) == Happens(After(start, events), e)
  {
    assert (events + [e])[..|events|] == events;
  }

  lemma {:induction false} WindUp(start: ServerState, n: nat) returns (events: seq<Event>)
    requires n <= |start.tasks|
    ensures forall e :: e in events ==> WindsUp(e)
    ensures var h := After(start, events);
            |h.tasks| == |start.tasks| && forall t :: 0 <= t < n ==> h.tasks[t] == Gone
  {
    events := [];
    if n > 0 {
      var before := WindUp(start, n - 1);
      AfterSnoc(start, before, CutShort(n - 1));
      AfterSnoc(start, before + [CutShort(n - 1)], DropsGuard(n - 1));
      AfterSnoc(start, before + [CutShort(n - 1)] + [DropsGuard(n - 1)], ReleasesPermit(n - 1));
      events := before + [CutShort(n - 1)] + [DropsGuard(n - 1)] + [ReleasesPermit(n - 1)];
      OneWindsUp(After(start, before), n - 1);
    }
  }

  lemma {:induction false} AllAt(tasks: seq<Stage>, s: Stage)
    requires forall t :: 0 <= t < |tasks| ==> tasks[t] == s
    ensures At(tasks, s) == |tasks|
  {
    if tasks != [] {
      var n := |tasks| - 1;
      AllAt(tasks[..n], s);
      assert tasks == tasks[..n] + [tasks[n]];
    }
  }

  /**
   From every state the books balance in, cutting short what is left, with nothing admitted and nobody
   waited for, ends with every permit back and the gauge at zero.
  */
  lemma {:induction false} ShuttingDownEmpties(start: ServerState, maxStreams: nat) returns (events: seq<Event>)
    requires Sound(start, maxStreams)
    ensures forall e :: e in events ==> WindsUp(e)
    ensures var h := After(start, events);
            && (forall t :: 0 <= t < |h.tasks| ==> h.tasks[t] == Gone)
            && h.available == maxStreams && h.ledger.inFlight == 0
  {
    events := WindUp(start, |start.tasks|);
    AllAt(After(start, events).tasks, Gone);
    QuietServerBalances(start, maxStreams, events);
  }

  // ---------------------------------------------------------------- one visit is one path through the accept loop

  /** What one served stream's task does from its first step until it is about to release its permit. */
  function Served(h: ServerState, t: nat, handshake: Result<Header, HandshakeError>, read: nat, v: Visit,
      ended: Splice.Ended): ServerState {
    if handshake.Err? then Happens(h, Shakes(t, Some(handshake.error)))
    else
      var shaken := Happens(h, Shakes(t, None));
      if read == 0 then Happens(shaken, Reads(t, false))
      else
        var asked := Happens(shaken, Reads(t, true));
        if v.reachable then Happens(Relayed(Happens(asked, Connects(t, true)), t, v, ended), DropsGuard(t))
        else Happens(asked, Connects(t, false))
  }

  function Relayed(h: ServerState, t: nat, v: Visit, ended: Splice.Ended): ServerState {
    if v.firstWritten then Happens(Happens(h, WritesFirst(t, true)), Ends(t, ended))
    else Happens(h, WritesFirst(t, false))
  }

  /** From `h` to `r`, task `t` alone has moved, to `stage`, and these marks have been made. */
  predicate Walked(h: ServerState, r: ServerState, t: nat, stage: Stage, marks: seq<Mark>) {
    && t < |h.tasks| && r.tasks == h.tasks[t := stage] && r.available == h.available
    && r.ledger == MarkedAll(h.ledger, marks)
  }

  lemma {:induction false} Walk(h: ServerState, so: ServerState, r: ServerState, t: nat, stage: Stage, next: Stage,
      marks: seq<Mark>, m: Option<Mark>, marks': seq<Mark>)
    requires Walked(h, so, t, stage, marks)
    requires r.tasks == so.tasks[t := next] && r.available == so.available
    requires r.ledger == if m.Some? then Marked(so.ledger, m.value) else so.ledger
    requires marks' == if m.Some? then marks + [m.value] else marks
    ensures Walked(h, r, t, next, marks')
  {
    if m.Some? {
      MarkSnoc(h.ledger, marks, m.value);
    }
  }

  lemma {:induction false} Stay(h: ServerState, t: nat)
    requires t < |h.tasks|
    ensures Walked(h, h, t, h.tasks[t], [])
  {
  }

  lemma {:induction false} WalkToUpstream(h: ServerState, t: nat)
    requires In(h, t, Shaking)
    ensures var shaken := Happens(h, Shakes(t, None));
            && Walked(h, shaken, t, Waiting, [StreamAccepted])
            && Walked(h, Happens(shaken, Reads(t, true)), t, Connecting, [StreamAccepted])
  {
    var shaken := Happens(h, Shakes(t, None));
    Stay(h, t);
    Walk(h, h, shaken, t, Shaking, Waiting, [], Some(StreamAccepted), [StreamAccepted]);
    Walk(h, shaken, Happens(shaken, Reads(t, true)), t, Waiting, Connecting, [StreamAccepted], None, [StreamAccepted]);
  }

  lemma {:induction false} WalkThroughRelay(h: ServerState, so: ServerState, t: nat, v: Visit, ended: Splice.Ended,
        marks: seq<Mark>)
    requires Walked(h, so, t, Opening, marks)
    ensures Walked(h, Relayed(so, t, v, ended), t, Guarded,
                   if v.firstWritten then marks + [Finished(EndingOf(ended))] else marks)
  {
    if v.firstWritten {
      var written, ending := Happens(so, WritesFirst(t, true)), Finished(EndingOf(ended));
      Walk(h, so, written, t, Opening, Splicing, marks, None, marks);
      Walk(h, written, Happens(written, Ends(t, ended)), t, Splicing, Guarded, marks, Some(ending), marks + [ending]);
    } else {
      Walk(h, so, Happens(so, WritesFirst(t, false)), t, Opening, Guarded, marks, None, marks);
    }
  }

  lemma {:induction false} WalkFromConnecting(h: ServerState, asked: ServerState, t: nat, v: Visit, ended: Splice.Ended,
        marks: seq<Mark>)
    requires Walked(h, asked, t, Connecting, [StreamAccepted])
    requires marks == [StreamAccepted, UpstreamConnected] + RelayMarks(v, ended)
    ensures Walked(h, Happens(Relayed(Happens(asked, Connects(t, true)), t, v, ended), DropsGuard(t)), t, Leaving,
                   marks)
  {
    var connected := Happens(asked, Connects(t, true));
    var relayed, up := Relayed(connected, t, v, ended), [StreamAccepted, UpstreamConnected];
    Walk(h, asked, connected, t, Connecting, Opening, [StreamAccepted], Some(UpstreamConnected), up);
    WalkThroughRelay(h, connected, t, v, ended, up);
    Walk(h, relayed, Happens(relayed, DropsGuard(t)), t, Guarded, Leaving,
         if v.firstWritten then up + [Finished(EndingOf(ended))] else up, Some(GuardDropped), marks);
  }

  /**
   What `Serve` counts is what its path through the accept loop counts, and the path ends about to give its
   permit back.
  */
  lemma {:induction false} ServingIsAPath(h: ServerState, t: nat, handshake: Result<Header, HandshakeError>, read: nat,
        v: Visit, ended: Splice.Ended)
    requires In(h, t, Shaking)
    ensures Walked(h, Served(h, t, handshake, read, v, ended), t, Leaving, MarksOf(handshake, read, v, ended))
  {
    if handshake.Err? {
      var rejected := StreamRejected(ReasonOf(handshake.error));
      Stay(h, t);
      Walk(h, h, Happens(h, Shakes(t, Some(handshake.error))), t, Shaking, Leaving, [], Some(rejected), [rejected]);
    } else {
      var shaken := Happens(h, Shakes(t, None));
      var asked := Happens(shaken, Reads(t, true));
      WalkToUpstream(h, t);
      if read == 0 {
        Walk(h, shaken, Happens(shaken, Reads(t, false)), t, Waiting, Leaving,
             [StreamAccepted], Some(StreamWithoutRequest), [StreamAccepted, StreamWithoutRequest]);
      } else if v.reachable {
        WalkFromConnecting(h, asked, t, v, ended, MarksOf(handshake, read, v, ended));
      } else {
        Walk(h, asked, Happens(asked, Connects(t, false)), t, Connecting, Leaving,
             [StreamAccepted], Some(UpstreamUnreachable), [StreamAccepted, UpstreamUnreachable]);
      }
    }
  }
}
