/**
 What the wallet and the upstream send does arrive: from every state a connection can be in, as long as
 both halves keep at it.
*/
module Delivery {
  import opened Wrappers
  import opened Handshake
  import opened Transparency
  import PumpRuns

  /** A step of one half or the other; the wallet and the upstream send nothing more, and nobody leaves. */
  predicate Carries(a: Action) { a.Dialler? || a.Listener? }

  function Does(w: World, acts: seq<Action>): World {
    if acts == [] then w else Act(Does(w, acts[..|acts| - 1]), acts[|acts| - 1])
  }

  /** The two halves can get from one state to the other. */
  ghost predicate Reaches(w: World, v: World) {
    exists acts: seq<Action> :: (forall a :: a in acts ==> Carries(a)) && v == Does(w, acts)
  }

  lemma {:induction false} ReachesItself(w: World)
    ensures Reaches(w, w)
  {
    assert Does(w, []) == w;
  }

  lemma {:induction false} ReachesFurther(w: World, v: World, a: Action)
    requires Reaches(w, v) && Carries(a)
    ensures Reaches(w, Act(v, a))
  {
    var acts: seq<Action> :| (forall a :: a in acts ==> Carries(a)) && v == Does(w, acts);
    assert (acts + [a])[..|acts|] == acts;
    assert Does(w, acts + [a]) == Act(v, a);
  }

  // ---------------------------------------------------------------- what holds throughout

  /** What is on its way back while no upstream is being copied: all of the echo is out, and nothing else came. */
  predicate EchoOut(w: World) {
    && (!UpstreamOpen(w) ==> w.upstream == [])
    && (!w.listener.Splicing? && !w.listener.WritingEcho? ==> w.toBack.held == [])
  }

  ghost predicate Healthy(w: World) {
    && !w.diallerGone && !w.listenerGone
    && Up(w) && Down(w) && PumpRuns.AtHeaderEnd(w) && EchoOut(w)
  }

  predicate SameSent(w: World, v: World) { v.header == w.header && v.wallet == w.wallet && v.upstream == w.upstream }

  lemma {:induction false} DiallerKeepsEchoOut(w: World, a: DialAction)
    requires EchoOut(w)
    ensures EchoOut(DiallerActs(w, a)) && SameSent(w, DiallerActs(w, a))
  {
  }

  lemma {:induction false} ListenerKeepsEchoOut(w: World, a: ServeAction)
    requires EchoOut(w)
    ensures EchoOut(ListenerActs(w, a)) && SameSent(w, ListenerActs(w, a))
  {
  }

  lemma {:induction false} StepKeepsHealthy(v: World, a: Action)
    requires Healthy(v) && Carries(a)
    ensures Healthy(Act(v, a)) && SameSent(v, Act(v, a))
  {
    ActKeeps(v, a);
    match a {
      case Dialler(d) =>
        DiallerStays(v, d);
        DiallerKeepsEchoOut(v, d);
        PumpRuns.DiallerLeavesHeaderEnd(v, d);
      case Listener(l) =>
        ListenerStays(v, l);
        ListenerKeepsEchoOut(v, l);
        PumpRuns.ListenerKeepsHeaderEnd(v, l);
    }
  }

  lemma {:induction false} DoesKeepsHealthy(w: World, acts: seq<Action>)
    requires Healthy(w) && forall a :: a in acts ==> Carries(a)
    ensures Healthy(Does(w, acts)) && SameSent(w, Does(w, acts))
  {
    if acts != [] {
      DoesKeepsHealthy(w, acts[..|acts| - 1]);
      StepKeepsHealthy(Does(w, acts[..|acts| - 1]), acts[|acts| - 1]);
    }
  }

  lemma {:induction false} StaysHealthy(w: World, v: World)
    requires Healthy(w) && Reaches(w, v)
    ensures Healthy(v) && SameSent(w, v)
  {
    var acts: seq<Action> :| (forall a :: a in acts ==> Carries(a)) && v == Does(w, acts);
    DoesKeepsHealthy(w, acts);
  }

  lemma {:induction false} NobodyLeft(w: World, v: World)
    requires Healthy(w) && Reaches(w, v)
    ensures !v.diallerGone && !v.listenerGone
  {
    StaysHealthy(w, v);
  }

  /** One step of the dialling half, from somewhere the halves have got to. */
  lemma {:induction false} Dials(w: World, v: World, d: DialAction) returns (u: World)
    requires Healthy(w) && Reaches(w, v)
    ensures u == DiallerActs(v, d) && Reaches(w, u)
  {
    NobodyLeft(w, v);
    u := Act(v, Dialler(d));
    ReachesFurther(w, v, Dialler(d));
  }

  /** One step of the listening half. */
  lemma {:induction false} Listens(w: World, v: World, l: ServeAction) returns (u: World)
    requires Healthy(w) && Reaches(w, v)
    ensures u == ListenerActs(v, l) && Reaches(w, u)
  {
    NobodyLeft(w, v);
    u := Act(v, Listener(l));
    ReachesFurther(w, v, Listener(l));
  }

  lemma {:induction false} EveryRunIsHealthy(header: Header, actions: seq<Action>)
    requires !After(header, actions).diallerGone && !After(header, actions).listenerGone
    ensures Healthy(After(header, actions))
  {
    EveryRunKeeps(header, actions);
    PumpRuns.RequestsFollowTheHeader(header, actions);
    EchoIsOut(header, actions);
  }

  lemma {:induction false} EchoIsOut(header: Header, actions: seq<Action>)
    ensures EchoOut(After(header, actions))
  {
    if actions != [] {
      var before, a := actions[..|actions| - 1], actions[|actions| - 1];
      EchoIsOut(header, before);
      match a {
        case Dialler(d) => DiallerKeepsEchoOut(After(header, before), d);
        case Listener(l) => ListenerKeepsEchoOut(After(header, before), l);
        case _ =>
      }
    }
  }

  // ---------------------------------------------------------------- what each stage has to go on

  lemma {:induction false} HeaderIsThere(w: World, v: World)
    requires Healthy(w) && Reaches(w, v) && v.toStream.held == []
    ensures |v.there| == HEADER_LEN + v.toStream.read
  {
    StaysHealthy(w, v);
    assert |v.there + v.toStream.held| == HEADER_LEN + v.toStream.read;
  }

  /** A header so far, or all of it. */
  lemma {:induction false} HeaderSoFar(w: World, v: World)
    requires Healthy(w) && Reaches(w, v) && v.listener.ReadingHeader?
    ensures v.toUpstream.read == |v.toUpstream.held| <= HEADER_LEN
    ensures |v.toUpstream.held| == HEADER_LEN ==> Decode(v.toUpstream.held).Ok?
  {
    StaysHealthy(w, v);
    if |v.toUpstream.held| == HEADER_LEN {
      HeaderArrives(v);
    }
  }

  lemma {:induction false} EchoSoFar(w: World, v: World)
    requires Healthy(w) && Reaches(w, v) && v.dialler.AwaitingEcho?
    ensures v.toWallet.read == |v.toWallet.held| <= HEADER_LEN
    ensures |v.toWallet.held| == HEADER_LEN ==> Decode(v.toWallet.held) == Ok(v.header)
  {
    StaysHealthy(w, v);
    if |v.toWallet.held| == HEADER_LEN {
      EchoArrives(v);
    }
  }

  lemma {:induction false} EchoIsThere(w: World, v: World)
    requires Healthy(w) && Reaches(w, v) && v.dialler.AwaitingEcho?
    requires v.toBack.held == [] && !v.listener.ReadingHeader?
    ensures HEADER_LEN <= |v.back|
  {
    StaysHealthy(w, v);
    assert |v.back + v.toBack.held| >= HEADER_LEN;
  }

  lemma {:induction false} NothingHeldBack(w: World, v: World)
    requires Healthy(w) && Reaches(w, v) && !v.listener.WritingEcho? && !v.listener.Splicing?
    ensures v.toBack.held == []
  {
    StaysHealthy(w, v);
  }

  lemma {:induction false} RequestComesNext(w: World, v: World)
    requires Healthy(w) && Reaches(w, v) && v.listener.AwaitingRequest?
    ensures v.toUpstream.read == HEADER_LEN && v.toUpstream.held == [] && v.toUpstream.chunk == 0
  {
    StaysHealthy(w, v);
  }

  lemma {:induction false} ReadsAreOfTheSource(w: World, v: World)
    requires Healthy(w) && Reaches(w, v)
    ensures v.toStream.read <= |v.wallet| && v.toUpstream.read <= |v.there|
    ensures v.toWallet.read <= |v.back|
    ensures !v.listener.ReadingHeader? ==> v.toBack.read <= |v.upstream|
  {
    StaysHealthy(w, v);
  }

  // ---------------------------------------------------------------- the handshake gets done

  /** The header goes out, and whatever else the dialling half has in hand. */
  lemma {:induction false} HeaderGoesOut(w: World, v: World) returns (u: World)
    requires Healthy(w) && Reaches(w, v)
    ensures Reaches(w, u) && !u.dialler.WritingHeader? && HEADER_LEN <= |u.there|
  {
    u := Dials(w, v, WriteToStream(|v.toStream.held|));
    HeaderIsThere(w, u);
    u := Dials(w, u, HeaderSent);
  }

  /** The listening half reads it. */
  lemma {:induction false} HeaderIsRead(w: World, v: World) returns (u: World)
    requires Healthy(w) && Reaches(w, v) && HEADER_LEN <= |v.there|
    ensures Reaches(w, u) && u.dialler == v.dialler && !u.listener.ReadingHeader?
  {
    u := v;
    if u.listener.ReadingHeader? {
      HeaderSoFar(w, u);
      if |u.toUpstream.held| < HEADER_LEN {
        u := Listens(w, u, ReadHeader(HEADER_LEN - |u.toUpstream.held|));
        HeaderSoFar(w, u);
      }
      u := Listens(w, u, HeaderRead);
    }
  }

  /** It echoes it, if asked to. */
  lemma {:induction false} EchoGoesOut(w: World, v: World) returns (u: World)
    requires Healthy(w) && Reaches(w, v) && !v.listener.ReadingHeader?
    ensures Reaches(w, u) && u.dialler == v.dialler && !u.listener.ReadingHeader? && !u.listener.WritingEcho?
    ensures u.toBack.held == []
  {
    u := Listens(w, v, WriteBack(|v.toBack.held|));
    u := Listens(w, u, EchoSent);
    if !u.listener.Splicing? {
      NothingHeldBack(w, u);
    }
  }

  /** And the dialling half takes the echo. */
  lemma {:induction false} EchoIsTaken(w: World, v: World) returns (u: World)
    requires Healthy(w) && Reaches(w, v) && !v.dialler.WritingHeader?
    requires !v.listener.ReadingHeader? && v.toBack.held == []
    ensures Reaches(w, u) && u.dialler.Carrying? && u.listener == v.listener
  {
    u := v;
    if u.dialler.AwaitingEcho? {
      EchoIsThere(w, u);
      EchoSoFar(w, u);
      if |u.toWallet.held| < HEADER_LEN {
        u := Dials(w, u, ReadEcho(HEADER_LEN - |u.toWallet.held|));
        EchoSoFar(w, u);
      }
      u := Dials(w, u, EchoRead);
    }
  }

  // ---------------------------------------------------------------- the four pumps empty what they read from

  lemma {:induction false} WalletIsRead(w: World, v: World) returns (u: World)
    requires Healthy(w) && Reaches(w, v) && v.dialler.Carrying?
    ensures Reaches(w, u) && u == v.(toStream := u.toStream, there := u.there)
    ensures u.toStream.held == [] && u.toStream.read == |u.wallet|
    decreases |v.wallet| - v.toStream.read
  {
    u := Dials(w, v, WriteToStream(|v.toStream.held|));
    u := Dials(w, u, RecordOut);
    ReadsAreOfTheSource(w, u);
    if u.toStream.read < |u.wallet| {
      u := Dials(w, u, ReadWallet(Min(BUFFER, |u.wallet| - u.toStream.read)));
      u := WalletIsRead(w, u);
    }
  }

  lemma {:induction false} StreamIsReadUp(w: World, v: World) returns (u: World)
    requires Healthy(w) && Reaches(w, v) && v.listener.Splicing?
    ensures Reaches(w, u) && u == v.(toUpstream := u.toUpstream, upstreamGot := u.upstreamGot)
    ensures u.toUpstream.held == [] && u.toUpstream.read == |u.there|
    decreases |v.there| - v.toUpstream.read
  {
    u := Listens(w, v, WriteUpstream(|v.toUpstream.held|));
    u := Listens(w, u, RecordUp);
    ReadsAreOfTheSource(w, u);
    if u.toUpstream.read < |u.there| {
      u := Listens(w, u, ReadMore(Min(BUFFER, |u.there| - u.toUpstream.read)));
      u := StreamIsReadUp(w, u);
    }
  }

  lemma {:induction false} UpstreamIsRead(w: World, v: World) returns (u: World)
    requires Healthy(w) && Reaches(w, v) && v.listener.Splicing?
    ensures Reaches(w, u) && u == v.(toBack := u.toBack, back := u.back)
    ensures u.toBack.held == [] && u.toBack.read == |u.upstream|
    decreases |v.upstream| - v.toBack.read
  {
    u := Listens(w, v, WriteBack(|v.toBack.held|));
    u := Listens(w, u, RecordDown);
    ReadsAreOfTheSource(w, u);
    if u.toBack.read < |u.upstream| {
      u := Listens(w, u, ReadUpstream(Min(BUFFER, |u.upstream| - u.toBack.read)));
      u := UpstreamIsRead(w, u);
    }
  }

  lemma {:induction false} StreamIsReadDown(w: World, v: World) returns (u: World)
    requires Healthy(w) && Reaches(w, v) && v.dialler.Carrying?
    ensures Reaches(w, u) && u == v.(toWallet := u.toWallet, walletGot := u.walletGot)
    ensures u.toWallet.held == [] && u.toWallet.read == |u.back|
    decreases |v.back| - v.toWallet.read
  {
    u := Dials(w, v, WriteWallet(|v.toWallet.held|));
    u := Dials(w, u, RecordIn);
    ReadsAreOfTheSource(w, u);
    if u.toWallet.read < |u.back| {
      u := Dials(w, u, ReadStream(Min(BUFFER, |u.back| - u.toWallet.read)));
      u := StreamIsReadDown(w, u);
    }
  }

  predicate OnlyUp(v: World, u: World) {
    u == v.(listener := u.listener, toUpstream := u.toUpstream, upstreamGot := u.upstreamGot)
  }

  lemma {:induction false} RequestIsRead(w: World, v: World) returns (u: World)
    requires Healthy(w) && Reaches(w, v) && !v.listener.ReadingHeader? && !v.listener.WritingEcho?
    requires v.listener.AwaitingRequest? ==> HEADER_LEN < |v.there|
    ensures Reaches(w, u) && UpstreamOpen(u) && OnlyUp(v, u)
  {
    u := v;
    if u.listener.AwaitingRequest? {
      RequestComesNext(w, u);
      u := Listens(w, u, ReadRequest(Min(BUFFER, |u.there| - HEADER_LEN)));
    }
    u := Listens(w, u, Connected);
  }

  /** A request that is there gets the listening half to its splice. */
  lemma {:induction false} RequestIsServed(w: World, v: World) returns (u: World)
    requires Healthy(w) && Reaches(w, v) && UpstreamOpen(v)
    ensures Reaches(w, u) && u.listener.Splicing? && OnlyUp(v, u)
  {
    u := Listens(w, v, WriteUpstream(|v.toUpstream.held|));
    u := Listens(w, u, FirstWritten);
  }

  // ---------------------------------------------------------------- everything arrives

  predicate AllArrived(w: World) { w.upstreamGot == w.wallet && w.walletGot == w.upstream }

  lemma {:induction false} AllUpArrives(w: World)
    requires Up(w) && !w.listener.ReadingHeader?
    requires w.toStream.held == [] && w.toStream.read == |w.wallet|
    requires w.toUpstream.held == [] && w.toUpstream.read == |w.there|
    ensures w.upstreamGot == w.wallet
  {
    NothingLostUp(w);
    assert w.upstreamGot + ([] + [] + []) == w.upstreamGot;
  }

  lemma {:induction false} AllDownArrives(w: World)
    requires Down(w) && !w.listener.ReadingHeader? && w.dialler.Carrying?
    requires w.toBack.held == [] && w.toBack.read == |w.upstream|
    requires w.toWallet.held == [] && w.toWallet.read == |w.back|
    ensures w.walletGot == w.upstream
  {
    NothingLostDown(w);
    assert w.walletGot + ([] + [] + []) == w.walletGot;
  }

  /** Nothing sent, nothing to deliver: the listening half is still waiting for a request. */
  lemma {:induction false} NothingToArrive(w: World)
    requires Healthy(w) && w.listener.AwaitingRequest? && w.wallet == []
    ensures AllArrived(w)
  {
    PrefixDown(w);
  }

  lemma {:induction false} HandshakeGetsDone(w: World) returns (u: World)
    requires Healthy(w)
    ensures Reaches(w, u) && u.dialler.Carrying? && !u.listener.ReadingHeader? && !u.listener.WritingEcho?
  {
    ReachesItself(w);
    u := HeaderGoesOut(w, w);
    u := HeaderIsRead(w, u);
    u := EchoGoesOut(w, u);
    u := EchoIsTaken(w, u);
  }

  /** All of the wallet's bytes are in the stream. */
  predicate WalletEmptied(w: World) { w.toStream.held == [] && w.toStream.read == |w.wallet| }

  lemma {:induction false} SpliceGetsDone(w: World, v: World) returns (u: World)
    requires Healthy(w) && Reaches(w, v) && WalletEmptied(v)
    requires v.dialler.Carrying? && UpstreamOpen(v)
    ensures Reaches(w, u) && AllArrived(u)
  {
    u := RequestIsServed(w, v);
    u := StreamIsReadUp(w, u);
    u := UpstreamIsRead(w, u);
    u := StreamIsReadDown(w, u);
    StaysHealthy(w, u);
    AllUpArrives(u);
    AllDownArrives(u);
  }

  lemma {:induction false} PumpsGetDone(w: World, v: World) returns (u: World)
    requires Healthy(w) && Reaches(w, v)
    requires v.dialler.Carrying? && !v.listener.ReadingHeader? && !v.listener.WritingEcho?
    ensures Reaches(w, u) && AllArrived(u)
  {
    u := WalletIsRead(w, v);
    HeaderIsThere(w, u);
    if u.listener.AwaitingRequest? && u.wallet == [] {
      StaysHealthy(w, u);
      NothingToArrive(u);
    } else {
      u := RequestIsRead(w, u);
      u := SpliceGetsDone(w, u);
    }
  }

  lemma {:induction false} DoesAfter(header: Header, actions: seq<Action>, more: seq<Action>)
    ensures After(header, actions + more) == Does(After(header, actions), more)
  {
    if more == [] {
      assert actions + more == actions;
    } else {
      var n := |more| - 1;
      assert (actions + more)[..|actions + more| - 1] == actions + more[..n];
      DoesAfter(header, actions, more[..n]);
    }
  }

  /**
   After any run in which neither half has gone, with the probe on or off, there are steps of the two
   halves after which the upstream has all the wallet sent and the wallet all the upstream sent.
  */
  lemma {:induction false} EverythingCanArrive(header: Header, actions: seq<Action>) returns (more: seq<Action>)
    requires !After(header, actions).diallerGone && !After(header, actions).listenerGone
    ensures forall a :: a in more ==> Carries(a)
    ensures SameSent(After(header, actions), After(header, actions + more))
    ensures After(header, actions + more).upstreamGot == After(header, actions).wallet
    ensures After(header, actions + more).walletGot == After(header, actions).upstream
  {
    var w := After(header, actions);
    EveryRunIsHealthy(header, actions);
    var v := HandshakeGetsDone(w);
    var u := PumpsGetDone(w, v);
    StaysHealthy(w, u);
    more :| (forall a :: a in more ==> Carries(a)) && u == Does(w, more);
    DoesAfter(header, actions, more);
  }

  lemma {:induction false} AfterSnoc(header: Header, actions: seq<Action>, a: Action)
    ensures After(header, actions + [a]) == Act(After(header, actions), a)
  {
    assert (actions + [a])[..|actions|] == actions;
  }

  lemma {:induction false} WalletAsks(header: Header, up: seq<byte>)
    ensures var w := After(header, [WalletSends(up)]);
            w.wallet == up && w.upstream == [] && !w.diallerGone && !w.listenerGone
  {
    AfterSnoc(header, [], WalletSends(up));
    assert [] + [WalletSends(up)] == [WalletSends(up)] && [] + up == up;
  }

  /** The upstream has nothing unless it is connected. */
  lemma {:induction false} OpenOnceGiven(header: Header, actions: seq<Action>)
    requires After(header, actions).upstreamGot != []
    ensures UpstreamOpen(After(header, actions))
  {
    PumpRuns.RequestsFollowTheHeader(header, actions);
  }

  /** The wallet asks, and all of it gets there. */
  lemma {:induction false} EveryRequestArrives(header: Header, up: seq<byte>) returns (actions: seq<Action>)
    requires up != []
    ensures UpstreamOpen(After(header, actions)) && DiallerLeaves !in actions && ListenerLeaves !in actions
    ensures var w := After(header, actions); w.wallet == up == w.upstreamGot && w.upstream == []
  {
    var asked := [WalletSends(up)];
    WalletAsks(header, up);
    var more := EverythingCanArrive(header, asked);
    actions := asked + more;
    OpenOnceGiven(header, actions);
  }

  /** Whatever the two have to say to each other, the wallet first, is a run of some connection. */
  lemma {:induction false} EveryExchangeHappens(header: Header, up: seq<byte>, down: seq<byte>)
    returns (actions: seq<Action>)
    requires up != []
    ensures After(header, actions).wallet == up == After(header, actions).upstreamGot
    ensures After(header, actions).upstream == down == After(header, actions).walletGot
  {
    var asked := EveryRequestArrives(header, up);
    UpstreamAnswers(header, asked, down);
    assert [] + down == down;
    var answered := asked + [UpstreamSends(down)];
    NobodyGone(header, answered);
    var more := EverythingCanArrive(header, answered);
    actions := answered + more;
  }

  lemma {:induction false} NobodyGone(header: Header, actions: seq<Action>)
    requires DiallerLeaves !in actions && ListenerLeaves !in actions
    ensures !After(header, actions).diallerGone && !After(header, actions).listenerGone
  {
    OnlyLeavingEndsAHalf(header, actions);
  }

  lemma {:induction false} UpstreamAnswers(header: Header, actions: seq<Action>, bytes: seq<byte>)
    requires UpstreamOpen(After(header, actions))
    ensures After(header, actions + [UpstreamSends(bytes)])
         == After(header, actions).(upstream := After(header, actions).upstream + bytes)
  {
    AfterSnoc(header, actions, UpstreamSends(bytes));
  }

  // ---------------------------------------------------------------- a half that is gone

  lemma {:induction false} GoneDialler(w: World, acts: seq<Action>)
    requires w.diallerGone
    ensures Does(w, acts).diallerGone && Does(w, acts).there == w.there && Does(w, acts).walletGot == w.walletGot
  {
    if acts != [] {
      GoneDialler(w, acts[..|acts| - 1]);
    }
  }

  lemma {:induction false} GoneListener(w: World, acts: seq<Action>)
    requires w.listenerGone
    ensures Does(w, acts).listenerGone && Does(w, acts).back == w.back && Does(w, acts).upstreamGot == w.upstreamGot
  {
    if acts != [] {
      GoneListener(w, acts[..|acts| - 1]);
    }
  }

  /** Once a half leaves it puts nothing more anywhere, whatever happens. */
  lemma {:induction false} LeavingIsSilence(w: World, acts: seq<Action>)
    ensures var v := Does(Act(w, DiallerLeaves), acts); v.there == w.there && v.walletGot == w.walletGot
    ensures var v := Does(Act(w, ListenerLeaves), acts); v.back == w.back && v.upstreamGot == w.upstreamGot
  {
    GoneDialler(Act(w, DiallerLeaves), acts);
    GoneListener(Act(w, ListenerLeaves), acts);
  }

  // ---------------------------------------------------------------- what the other three hops record

  /** What a hop has read past `skip` is recorded or is the chunk in hand. */
  predicate Ledger(h: Hop, skip: nat) {
    skip <= h.read && h.logged + h.chunk == h.read - skip && |h.held| <= h.chunk <= BUFFER
  }

  /** Nothing is recorded before there is anything to copy. */
  predicate Unrecorded(h: Hop) { h.chunk == 0 && h.logged == 0 }

  predicate LedgerOut(w: World) {
    if w.dialler.WritingHeader? then Unrecorded(w.toStream) && w.toStream.read == 0 else Ledger(w.toStream, 0)
  }

  predicate LedgerIn(w: World) {
    if w.dialler.Carrying? then Ledger(w.toWallet, |EchoOf(w.header)|) else Unrecorded(w.toWallet)
  }

  predicate ListenerLedgers(w: World) {
    if w.listener.ReadingHeader? || w.listener.WritingEcho? then Unrecorded(w.toBack) && w.toBack.read == 0
    else Ledger(w.toBack, 0)
  }

  lemma {:induction false} DiallerLeavesTheListener(w: World, a: DialAction)
    ensures DiallerActs(w, a).listener == w.listener && DiallerActs(w, a).toBack == w.toBack
    ensures DiallerActs(w, a).header == w.header
  {
  }

  lemma {:induction false} DiallerKeepsLedgerOut(w: World, a: DialAction)
    requires LedgerOut(w)
    ensures LedgerOut(DiallerActs(w, a))
  {
  }

  lemma {:induction false} DiallerKeepsLedgerIn(w: World, a: DialAction)
    requires LedgerIn(w) && Down(w)
    ensures LedgerIn(DiallerActs(w, a))
  {
    match a {
      case EchoRead => HandshakeKeepsLedgerIn(w, a);
      case HeaderSent => HandshakeKeepsLedgerIn(w, a);
      case ReadEcho(_) => HandshakeKeepsLedgerIn(w, a);
      case _ => CopyingKeepsLedgerIn(w, a);
    }
  }

  lemma {:induction false} CopyingKeepsLedgerIn(w: World, a: DialAction)
    requires LedgerIn(w) && !a.EchoRead? && !a.HeaderSent? && !a.ReadEcho?
    ensures LedgerIn(DiallerActs(w, a))
  {
  }

  lemma {:induction false} HandshakeKeepsLedgerIn(w: World, a: DialAction)
    requires LedgerIn(w) && Down(w) && (a.EchoRead? || a.HeaderSent? || a.ReadEcho?)
    ensures LedgerIn(DiallerActs(w, a))
  {
  }

  lemma {:induction false} ListenerLeavesTheDialler(w: World, a: ServeAction)
    ensures var v := ListenerActs(w, a);
            v.header == w.header && v.dialler == w.dialler && v.toStream == w.toStream && v.toWallet == w.toWallet
  {
  }

  lemma {:induction false} ListenerKeepsLedgers(w: World, a: ServeAction)
    requires ListenerLedgers(w) && Down(w)
    ensures ListenerLedgers(ListenerActs(w, a))
  {
    if !a.HeaderRead? && !a.WriteBack? && !a.EchoSent? && !a.ReadUpstream? && !a.RecordDown? {
      UpLeavesTheWayDown(w, a);
      StageKeeps(w, a);
    }
  }

  lemma {:induction false} StageKeeps(w: World, a: ServeAction)
    requires !a.HeaderRead? && !a.EchoSent?
    ensures var v := ListenerActs(w, a);
            && (v.listener.ReadingHeader? <==> w.listener.ReadingHeader?)
            && (v.listener.WritingEcho? <==> w.listener.WritingEcho?)
  {
  }

  ghost predicate Ledgers(w: World) { LedgerOut(w) && LedgerIn(w) && ListenerLedgers(w) }

  lemma {:induction false} DialKeepsLedgers(w: World, d: DialAction)
    requires Ledgers(w) && Down(w)
    ensures Ledgers(DiallerActs(w, d))
  {
    DiallerLeavesTheListener(w, d);
    DiallerKeepsLedgerOut(w, d);
    DiallerKeepsLedgerIn(w, d);
  }

  lemma {:induction false} ListenKeepsLedgers(w: World, l: ServeAction)
    requires Ledgers(w) && Down(w)
    ensures Ledgers(ListenerActs(w, l))
  {
    ListenerLeavesTheDialler(w, l);
    ListenerKeepsLedgers(w, l);
  }

  lemma {:induction false} OthersKeepLedgers(w: World, a: Action)
    requires Ledgers(w) && !Carries(a)
    ensures Ledgers(Act(w, a))
  {
  }

  lemma {:induction false} ActKeepsLedgers(w: World, a: Action)
    requires Ledgers(w) && Down(w)
    ensures Ledgers(Act(w, a))
  {
    if !Carries(a) {
      OthersKeepLedgers(w, a);
    } else if a.Dialler? {
      DialKeepsLedgers(w, a.d);
    } else {
      ListenKeepsLedgers(w, a.l);
    }
  }

  lemma {:induction false} LedgersAlwaysHold(header: Header, actions: seq<Action>)
    ensures Ledgers(After(header, actions))
  {
    if actions != [] {
      var before := actions[..|actions| - 1];
      LedgersAlwaysHold(header, before);
      EveryRunKeeps(header, before);
      ActKeepsLedgers(After(header, before), actions[|actions| - 1]);
    }
  }

  /** Recorded, and delivered past the header or its echo: the same, short of at most the chunk being written. */
  predicate Records(h: Hop, delivered: int) { h.logged <= delivered <= h.logged + h.chunk && h.chunk <= BUFFER }

  /** In every run each pump's total is what it delivered, of the wallet's bytes and the upstream's and no others. */
  lemma {:induction false} TotalsAreDelivered(header: Header, actions: seq<Action>)
    ensures var w := After(header, actions);
            && (!w.dialler.WritingHeader? ==> Records(w.toStream, |w.there| - HEADER_LEN))
            && (w.dialler.Carrying? ==> Records(w.toWallet, |w.walletGot|))
            && (!w.listener.ReadingHeader? && !w.listener.WritingEcho? ==>
                  Records(w.toBack, |w.back| - |EchoOf(w.header)|))
  {
    var w := After(header, actions);
    EveryRunKeeps(header, actions);
    LedgersAlwaysHold(header, actions);
    assert |w.there + w.toStream.held| == HEADER_LEN + w.toStream.read;
    if w.dialler.Carrying? {
      assert |w.walletGot + w.toWallet.held| == w.toWallet.read - |EchoOf(w.header)|;
    }
    if !w.listener.ReadingHeader? {
      assert |w.back + w.toBack.held| == |EchoOf(w.header)| + w.toBack.read;
    }
  }
}
