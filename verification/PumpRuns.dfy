/**
 The listening half as a machine is the listening half as it is written: its first chunk and every turn
 of its pump are runs of the machine's reads, writes and records.
*/
module PumpRuns {
  import opened Wrappers
  import opened Handshake
  import opened Transparency
  import Pump
  import Server

  /** The listening half does these, one after another. */
  function Does(w: World, acts: seq<ServeAction>): World {
    if acts == [] then w else Act(Does(w, acts[..|acts| - 1]), Listener(acts[|acts| - 1]))
  }

  lemma {:induction false} DoesOne(w: World, acts: seq<ServeAction>, a: ServeAction)
    ensures Does(w, acts + [a]) == Act(Does(w, acts), Listener(a))
  {
    assert (acts + [a])[..|acts|] == acts;
  }

  lemma {:induction false} DoesMore(w: World, first: seq<ServeAction>, more: seq<ServeAction>)
    ensures Does(w, first + more) == Does(Does(w, first), more)
  {
    if more == [] {
      assert first + more == first;
    } else {
      var n := |more| - 1;
      assert (first + more)[..|first + more| - 1] == first + more[..n];
      DoesMore(w, first, more[..n]);
    }
  }

  /** A chunk is written in pieces of these sizes. */
  function Writes(sizes: seq<nat>): seq<ServeAction> {
    if sizes == [] then [] else Writes(sizes[..|sizes| - 1]) + [WriteUpstream(sizes[|sizes| - 1])]
  }

  function Sum(sizes: seq<nat>): nat {
    if sizes == [] then 0 else Sum(sizes[..|sizes| - 1]) + sizes[|sizes| - 1]
  }

  predicate MayWrite(w: World) { !w.listenerGone && (w.listener.WritingFirst? || w.listener.Splicing?) }

  /** So much more of what is held is at the upstream. */
  function Put(w: World, n: nat): World
    requires n <= |w.toUpstream.held|
  {
    w.(toUpstream := Written(w.toUpstream, n), upstreamGot := w.upstreamGot + w.toUpstream.held[..n])
  }

  lemma {:induction false} WriteIsPut(w: World, n: nat)
    requires MayWrite(w) && n <= |w.toUpstream.held|
    ensures Act(w, Listener(WriteUpstream(n))) == Put(w, n)
  {
  }

  lemma {:induction false} PutMore(w: World, n: nat, more: nat)
    requires n + more <= |w.toUpstream.held|
    ensures Put(Put(w, n), more) == Put(w, n + more)
  {
    var held := w.toUpstream.held;
    assert held[n..][more..] == held[n + more..];
    assert w.upstreamGot + held[..n] + held[n..][..more] == w.upstreamGot + held[..n + more];
  }

  lemma {:induction false} PutNothing(w: World)
    ensures Put(w, 0) == w
  {
    assert w.upstreamGot + w.toUpstream.held[..0] == w.upstreamGot;
  }

  /** However a write is cut into pieces, together they put down one prefix of what is held. */
  lemma {:induction false} PiecesAddUp(w: World, sizes: seq<nat>)
    requires MayWrite(w) && Sum(sizes) <= |w.toUpstream.held|
    ensures Does(w, Writes(sizes)) == Put(w, Sum(sizes))
  {
    if sizes == [] {
      PutNothing(w);
    } else {
      var n := |sizes| - 1;
      PiecesAddUp(w, sizes[..n]);
      DoesOne(w, Writes(sizes[..n]), WriteUpstream(sizes[n]));
      WriteIsPut(Put(w, Sum(sizes[..n])), sizes[n]);
      PutMore(w, Sum(sizes[..n]), sizes[n]);
    }
  }

  /** Copying to the upstream, with no chunk in hand. */
  predicate BetweenChunks(w: World) {
    !w.listenerGone && w.listener.Splicing? && w.toUpstream.held == [] && w.toUpstream.chunk == 0
  }

  /** The chunk is what the stream has next. */
  predicate IsNext(w: World, chunk: seq<byte>) {
    w.toUpstream.read <= |w.there| && chunk <= w.there[w.toUpstream.read..]
  }

  /** What the machine does for one turn, its write cut into pieces of these sizes. */
  function TurnActs(turn: Pump.Turn, sizes: seq<nat>): seq<ServeAction> {
    [ReadMore(|turn.chunk|)] + Writes(sizes) + if turn.delivery.Delivered? then [RecordUp] else []
  }

  /** Read past, put to the upstream and recorded, by a machine that is otherwise as it was. */
  ghost predicate Carried(w: World, now: World, read: nat, sent: seq<byte>, recorded: nat) {
    && now.upstreamGot == w.upstreamGot + sent
    && now.toUpstream.read == w.toUpstream.read + read && now.toUpstream.logged == w.toUpstream.logged + recorded
    && now == w.(toUpstream := now.toUpstream, upstreamGot := now.upstreamGot)
  }

  /**
   One turn of the pump is one read, writes that come to what got out, and the record when it was flushed:
   the upstream is given exactly `Pump.Sent`, and only a delivered chunk is recorded.
  */
  lemma {:induction false} TurnIsARun(w: World, turn: Pump.Turn, sizes: seq<nat>)
    requires BetweenChunks(w) && Pump.PossibleTurn(turn) && IsNext(w, turn.chunk)
    requires Sum(sizes) == |Pump.Sent(turn)|
    ensures var now, done := Does(w, TurnActs(turn, sizes)), turn.delivery.Delivered?;
            && Carried(w, now, |turn.chunk|, Pump.Sent(turn), if done then |turn.chunk| else 0)
            && (done ==> BetweenChunks(now))
  {
    var n := |turn.chunk|;
    var read := w.(toUpstream := Hop(w.toUpstream.read + n, turn.chunk, n, w.toUpstream.logged));
    ReadsNext(w, turn.chunk);
    DoesOne(w, [], ReadMore(n));
    assert [] + [ReadMore(n)] == [ReadMore(n)];
    TurnEnds(w, read, [ReadMore(n)], turn, sizes);
  }

  lemma {:induction false} TurnEnds(w: World, read: World, acts: seq<ServeAction>, turn: Pump.Turn, sizes: seq<nat>)
    requires BetweenChunks(w) && Pump.PossibleTurn(turn) && Sum(sizes) == |Pump.Sent(turn)|
    requires var n := |turn.chunk|;
             read == w.(toUpstream := Hop(w.toUpstream.read + n, turn.chunk, n, w.toUpstream.logged))
    requires Does(w, acts) == read
    ensures var done := turn.delivery.Delivered?;
            var now := Does(w, acts + Writes(sizes) + if done then [RecordUp] else []);
            && Carried(w, now, |turn.chunk|, Pump.Sent(turn), if done then |turn.chunk| else 0)
            && (done ==> BetweenChunks(now))
  {
    var wrote := acts + Writes(sizes);
    DoesMore(w, acts, Writes(sizes));
    PiecesAddUp(read, sizes);
    assert turn.chunk[..|turn.chunk|] == turn.chunk;
    if turn.delivery.Delivered? {
      DoesOne(w, wrote, RecordUp);
    } else {
      assert wrote + [] == wrote;
    }
  }

  lemma {:induction false} ReadsNext(w: World, chunk: seq<byte>)
    requires BetweenChunks(w) && IsNext(w, chunk) && 0 < |chunk| <= BUFFER
    ensures Act(w, Listener(ReadMore(|chunk|)))
         == w.(toUpstream := Hop(w.toUpstream.read + |chunk|, chunk, |chunk|, w.toUpstream.logged))
  {
    var k := w.toUpstream.read;
    assert w.there[k..k + |chunk|] == w.there[k..][..|chunk|] == chunk;
  }

  /** The turns that are played: none comes after one that fails. */
  function Played(turns: seq<Pump.Turn>): seq<Pump.Turn> { turns[..Min(Pump.Completed(turns) + 1, |turns|)] }

  lemma {:induction false} BytesSnoc(turns: seq<Pump.Turn>, k: nat)
    requires k < |turns|
    ensures Pump.Bytes(turns[..k + 1]) == Pump.Bytes(turns[..k]) + turns[k].chunk
  {
    assert turns[..k + 1][..k] == turns[..k];
  }

  lemma {:induction false} BytesGrow(turns: seq<Pump.Turn>, k: nat, n: nat)
    requires k <= n <= |turns|
    ensures Pump.Bytes(turns[..k]) <= Pump.Bytes(turns[..n])
  {
    if k < n {
      BytesGrow(turns, k, n - 1);
      BytesSnoc(turns, n - 1);
    }
  }

  /** After `read`, the stream has next what it had after it. */
  lemma {:induction false} NextAfter(w: World, now: World, read: seq<byte>, chunk: seq<byte>)
    requires IsNext(w, read + chunk) && now.there == w.there && now.toUpstream.read == w.toUpstream.read + |read|
    ensures IsNext(now, chunk)
  {
    var next := w.there[w.toUpstream.read..];
    assert next[|read|..] == now.there[now.toUpstream.read..];
    assert chunk == (read + chunk)[|read|..] == next[|read|..|read + chunk|] == next[|read|..][..|chunk|];
  }

  lemma {:induction false} CompletedTurns(w: World, turns: seq<Pump.Turn>, k: nat) returns (acts: seq<ServeAction>)
    requires BetweenChunks(w) && Pump.Possible(turns)
    requires k <= Pump.Completed(turns) && IsNext(w, Pump.Bytes(turns[..k]))
    ensures var now, bytes := Does(w, acts), Pump.Bytes(turns[..k]);
            BetweenChunks(now) && Carried(w, now, |bytes|, bytes, |bytes|)
  {
    acts := [];
    if k > 0 {
      BytesSnoc(turns, k - 1);
      acts := CompletedTurns(w, turns, k - 1);
      acts := OneTurnMore(w, acts, Pump.Bytes(turns[..k - 1]), turns[k - 1]);
    }
  }

  lemma {:induction false} OneTurnMore(w: World, acts: seq<ServeAction>, bytes: seq<byte>, turn: Pump.Turn)
    returns (more: seq<ServeAction>)
    requires BetweenChunks(Does(w, acts)) && Carried(w, Does(w, acts), |bytes|, bytes, |bytes|)
    requires Pump.PossibleTurn(turn) && IsNext(w, bytes + turn.chunk)
    ensures var now, done := Does(w, more), turn.delivery.Delivered?;
            && Carried(w, now, |bytes + turn.chunk|, bytes + Pump.Sent(turn),
                       if done then |bytes + turn.chunk| else |bytes|)
            && (done ==> BetweenChunks(now))
  {
    var now, sizes := Does(w, acts), [|Pump.Sent(turn)|];
    assert sizes[..0] == [];
    NextAfter(w, now, bytes, turn.chunk);
    TurnIsARun(now, turn, sizes);
    more := acts + TurnActs(turn, sizes);
    DoesMore(w, acts, TurnActs(turn, sizes));
    CarriedOn(w, now, Does(now, TurnActs(turn, sizes)), |bytes|, bytes, |bytes|,
              |turn.chunk|, Pump.Sent(turn), if turn.delivery.Delivered? then |turn.chunk| else 0);
  }

  lemma {:induction false} CarriedOn(w: World, mid: World, now: World, read: nat, sent: seq<byte>, recorded: nat,
      read': nat, sent': seq<byte>, recorded': nat)
    requires Carried(w, mid, read, sent, recorded) && Carried(mid, now, read', sent', recorded')
    ensures Carried(w, now, read + read', sent + sent', recorded + recorded')
  {
    assert w.upstreamGot + sent + sent' == w.upstreamGot + (sent + sent');
  }

  /**
   A whole pump is a run of the machine: on a stream that has the turns' chunks next, there are actions
   that give the upstream what `Pump.Copy` puts to its sink, and record what it counts.
  */
  lemma {:induction false} CopyIsARun(w: World, turns: seq<Pump.Turn>) returns (acts: seq<ServeAction>)
    requires BetweenChunks(w) && Pump.Possible(turns) && IsNext(w, Pump.Bytes(Played(turns)))
    ensures var now, whole := Does(w, acts), Pump.Bytes(turns[..Pump.Completed(turns)]);
            Carried(w, now, |Pump.Bytes(Played(turns))|, Pump.SentBy(turns), |whole|)
  {
    var n := Pump.Completed(turns);
    var played := Min(n + 1, |turns|);
    BytesGrow(turns, n, played);
    acts := CompletedTurns(w, turns, n);
    if n < |turns| {
      BytesSnoc(turns, n);
      acts := OneTurnMore(w, acts, Pump.Bytes(turns[..n]), turns[n]);
    } else {
      assert turns[..n] == turns;
    }
  }

  /** The copy buffer and the first chunk are the same size, in every module that has one. */
  lemma {:induction false} BuffersAreAlike()
    ensures Pump.COPY_BUFFER == Server.FIRST_CHUNK == BUFFER == 8192
  {
  }

  // ---------------------------------------------------------------- the first chunk

  /** Before a request is read, exactly the header has been, and nothing is in hand. */
  ghost predicate AtHeaderEnd(w: World) {
    && (w.listener.ReadingHeader? ==> w.toUpstream.chunk == 0 && w.toUpstream.logged == 0)
    && (w.listener.WritingEcho? || w.listener.AwaitingRequest? ==>
          && w.toUpstream.read == HEADER_LEN <= |w.there| && w.toUpstream.held == []
          && w.toUpstream.chunk == 0 && w.toUpstream.logged == 0)
    && (!UpstreamOpen(w) ==> w.upstreamGot == [])
  }

  lemma {:induction false} RequestsFollowTheHeader(header: Header, actions: seq<Action>)
    ensures AtHeaderEnd(After(header, actions))
  {
    if actions != [] {
      var before, a := actions[..|actions| - 1], actions[|actions| - 1];
      RequestsFollowTheHeader(header, before);
      EveryRunKeeps(header, before);
      var w := After(header, before);
      match a {
        case Dialler(d) => DiallerLeavesHeaderEnd(w, d);
        case Listener(l) => ListenerKeepsHeaderEnd(w, l);
        case _ =>
      }
    }
  }

  lemma {:induction false} DiallerLeavesHeaderEnd(w: World, a: DialAction)
    requires AtHeaderEnd(w)
    ensures AtHeaderEnd(DiallerActs(w, a))
  {
    DiallerLeavesBooks(w, a);
  }

  lemma {:induction false} ListenerKeepsHeaderEnd(w: World, a: ServeAction)
    requires AtHeaderEnd(w) && Up(w)
    ensures AtHeaderEnd(ListenerActs(w, a))
  {
  }

  /** What the machine does for a request of `n` bytes, its write cut into pieces of these sizes. */
  function RequestActs(n: nat, v: Server.Visit, sizes: seq<nat>): seq<ServeAction> {
    [ReadRequest(n)] + [Connected] + Writes(sizes) + if v.firstWritten then [FirstWritten] else []
  }

  /**
   And so is the first chunk: where a request is awaited, the machine's read, connection and writes give
   the upstream exactly what `Server.Serve` does, and only a chunk written whole is recorded.
  */
  lemma {:induction false} FirstChunkIsARun(w: World, v: Server.Visit, sizes: seq<nat>)
    requires AtHeaderEnd(w) && w.listener.AwaitingRequest? && !w.listenerGone && v.reachable
    requires var rest := Server.Rest(w.there);
             var n := Server.FirstRead(rest, v);
             n > 0 && Sum(sizes) == |Server.FirstSent(rest[..n], v)|
    ensures var rest := Server.Rest(w.there);
            var n := Server.FirstRead(rest, v);
            var now := Does(w, RequestActs(n, v, sizes));
            && now.upstreamGot == Server.FirstSent(rest[..n], v)
            && now.toUpstream.read == HEADER_LEN + n && now.toUpstream.logged == (if v.firstWritten then n else 0)
            && (v.firstWritten ==> BetweenChunks(now))
  {
    var opening := Server.Rest(w.there)[..Server.FirstRead(Server.Rest(w.there), v)];
    var n := |opening|;
    assert w.there[HEADER_LEN..HEADER_LEN + n] == opening;
    var ready := w.(listener := WritingFirst, toUpstream := Hop(HEADER_LEN + n, opening, n, 0));
    DoesOne(w, [], ReadRequest(n));
    DoesOne(w, [ReadRequest(n)], Connected);
    assert [] + [ReadRequest(n)] == [ReadRequest(n)];
    assert Does(w, [ReadRequest(n)] + [Connected]) == ready;
    FirstWritesAre(w, ready, [ReadRequest(n)] + [Connected], opening, v, sizes);
  }

  lemma {:induction false} FirstWritesAre(w: World, ready: World, acts: seq<ServeAction>, opening: seq<byte>,
      v: Server.Visit, sizes: seq<nat>)
    requires ready == Does(w, acts) && MayWrite(ready) && ready.listener.WritingFirst?
    requires ready.toUpstream == Hop(HEADER_LEN + |opening|, opening, |opening|, 0) && ready.upstreamGot == []
    requires Sum(sizes) == |Server.FirstSent(opening, v)|
    ensures var now := Does(w, acts + Writes(sizes) + if v.firstWritten then [FirstWritten] else []);
            && now.upstreamGot == Server.FirstSent(opening, v)
            && now.toUpstream.read == HEADER_LEN + |opening|
            && now.toUpstream.logged == (if v.firstWritten then |opening| else 0)
            && (v.firstWritten ==> BetweenChunks(now))
  {
    DoesMore(w, acts, Writes(sizes));
    PiecesAddUp(ready, sizes);
    assert opening[..|opening|] == opening;
    if v.firstWritten {
      DoesOne(w, acts + Writes(sizes), FirstWritten);
    } else {
      assert acts + Writes(sizes) + [] == acts + Writes(sizes);
    }
  }
}
