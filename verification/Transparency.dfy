/**
 A connection end to end: wallet, dialling half, mixnet stream, listening half, upstream.

 Every read takes any non-empty part of what is there, every write puts down any part of what is
 held, and either half may be gone at any moment; a run is any list of such actions, and one that is
 not possible where it comes does nothing. The stream itself delivers in order.
*/
module Transparency {
  import opened Wrappers
  import opened Handshake

  /** The copy buffer, and the first chunk the listening half reads, are the same size. */
  const BUFFER: nat := 8192

  /**
   What carries bytes from a source to a sink: how much it has read, what it read and has not written
   yet, the size of the chunk in hand until it is recorded, and the total recorded.
  */
  datatype Hop = Hop(read: nat, held: seq<byte>, chunk: nat, logged: nat)

  const FRESH := Hop(0, [], 0, 0)

  datatype DialStage = WritingHeader | AwaitingEcho | Carrying

  datatype ServeStage = ReadingHeader | WritingEcho | AwaitingRequest | Connecting | WritingFirst | Splicing

  /**
   The wallet's bytes travel `wallet`, `toStream`, `there`, `toUpstream`, `upstreamGot`; those of the
   upstream `upstream`, `toBack`, `back`, `toWallet`, `walletGot`.
  */
  datatype World = World(
    header: Header,
    dialler: DialStage, diallerGone: bool,
    listener: ServeStage, listenerGone: bool,
    wallet: seq<byte>, toStream: Hop, there: seq<byte>, toUpstream: Hop, upstreamGot: seq<byte>,
    upstream: seq<byte>, toBack: Hop, back: seq<byte>, toWallet: Hop, walletGot: seq<byte>)

  datatype DialAction =
    | WriteToStream(n: nat)
    | HeaderSent
    | ReadEcho(n: nat)
    | EchoRead
    | ReadWallet(n: nat)
    | RecordOut
    | ReadStream(n: nat)
    | WriteWallet(n: nat)
    | RecordIn

  datatype ServeAction =
    | ReadHeader(n: nat)
    | HeaderRead
    | WriteBack(n: nat)
    | EchoSent
    | ReadRequest(n: nat)
    | Connected
    | WriteUpstream(n: nat)
    | FirstWritten
    | ReadMore(n: nat)
    | RecordUp
    | ReadUpstream(n: nat)
    | RecordDown

  datatype Action =
    | WalletSends(bytes: seq<byte>)
    | UpstreamSends(bytes: seq<byte>)
    | Dialler(d: DialAction)
    | DiallerLeaves
    | Listener(l: ServeAction)
    | ListenerLeaves

  /** A dial with the probe on asks for the echo; with it off it does not. */
  function Begin(header: Header): World {
    World(header, WritingHeader, false, ReadingHeader, false,
          [], FRESH.(held := Encode(header)), [], FRESH, [], [], FRESH, [], FRESH, [])
  }

  // ---------------------------------------------------------------- one hop

  predicate CanRead(h: Hop, source: seq<byte>, n: nat) {
    h.held == [] && h.chunk == 0 && 0 < n <= BUFFER && h.read + n <= |source|
  }

  function Read(h: Hop, source: seq<byte>, n: nat): Hop
    requires CanRead(h, source, n)
  {
    Hop(h.read + n, source[h.read..h.read + n], n, h.logged)
  }

  function Written(h: Hop, n: nat): Hop
    requires n <= |h.held|
  {
    h.(held := h.held[n..])
  }

  /** A chunk is recorded once all of it is written. */
  function Recorded(h: Hop): Hop { if h.held == [] then h.(chunk := 0, logged := h.logged + h.chunk) else h }

  /** Part of a header, which is read to its exact length and not recorded. */
  predicate CanGather(h: Hop, source: seq<byte>, n: nat) {
    0 < n && |h.held| + n <= HEADER_LEN && h.read + n <= |source|
  }

  function Gather(h: Hop, source: seq<byte>, n: nat): Hop
    requires CanGather(h, source, n)
  {
    h.(read := h.read + n, held := h.held + source[h.read..h.read + n])
  }

  // ---------------------------------------------------------------- one action

  function DiallerActs(w: World, a: DialAction): World {
    match a
    case WriteToStream(n) =>
      if n <= |w.toStream.held|
      then w.(toStream := Written(w.toStream, n), there := w.there + w.toStream.held[..n]) else w
    case HeaderSent =>
      if w.dialler.WritingHeader? && w.toStream.held == []
      then w.(dialler := if w.header.echoRequested then AwaitingEcho else Carrying) else w
    case ReadEcho(n) =>
      if w.dialler.AwaitingEcho? && CanGather(w.toWallet, w.back, n)
      then w.(toWallet := Gather(w.toWallet, w.back, n)) else w
    case EchoRead =>
      if w.dialler.AwaitingEcho? && |w.toWallet.held| == HEADER_LEN then
        var echoed := Decode(w.toWallet.held);
        if echoed.Ok? && echoed.value.token == w.header.token
        then w.(dialler := Carrying, toWallet := w.toWallet.(held := []))
        else w.(diallerGone := true)
      else w
    case ReadWallet(n) =>
      if w.dialler.Carrying? && CanRead(w.toStream, w.wallet, n)
      then w.(toStream := Read(w.toStream, w.wallet, n)) else w
    case RecordOut => w.(toStream := Recorded(w.toStream))
    case ReadStream(n) =>
      if w.dialler.Carrying? && CanRead(w.toWallet, w.back, n) then w.(toWallet := Read(w.toWallet, w.back, n)) else w
    case WriteWallet(n) =>
      if w.dialler.Carrying? && n <= |w.toWallet.held|
      then w.(toWallet := Written(w.toWallet, n), walletGot := w.walletGot + w.toWallet.held[..n]) else w
    case RecordIn => if w.dialler.Carrying? then w.(toWallet := Recorded(w.toWallet)) else w
  }

  function ListenerActs(w: World, a: ServeAction): World {
    match a
    case ReadHeader(n) =>
      if w.listener.ReadingHeader? && CanGather(w.toUpstream, w.there, n)
      then w.(toUpstream := Gather(w.toUpstream, w.there, n)) else w
    case HeaderRead =>
      if w.listener.ReadingHeader? && |w.toUpstream.held| == HEADER_LEN then
        match Decode(w.toUpstream.held)
        case Err(_) => w.(listenerGone := true)
        case Ok(read) =>
          var taken := w.(toUpstream := w.toUpstream.(held := []));
          if read.echoRequested then taken.(listener := WritingEcho, toBack := w.toBack.(held := Encode(read)))
          else taken.(listener := AwaitingRequest)
      else w
    case WriteBack(n) =>
      if (w.listener.WritingEcho? || w.listener.Splicing?) && n <= |w.toBack.held|
      then w.(toBack := Written(w.toBack, n), back := w.back + w.toBack.held[..n]) else w
    case EchoSent =>
      if w.listener.WritingEcho? && w.toBack.held == [] then w.(listener := AwaitingRequest) else w
    case ReadRequest(n) =>
      if w.listener.AwaitingRequest? && CanRead(w.toUpstream, w.there, n)
      then w.(listener := Connecting, toUpstream := Read(w.toUpstream, w.there, n)) else w
    case Connected => if w.listener.Connecting? then w.(listener := WritingFirst) else w
    case WriteUpstream(n) =>
      if (w.listener.WritingFirst? || w.listener.Splicing?) && n <= |w.toUpstream.held|
      then w.(toUpstream := Written(w.toUpstream, n), upstreamGot := w.upstreamGot + w.toUpstream.held[..n]) else w
    case FirstWritten =>
      if w.listener.WritingFirst? && w.toUpstream.held == []
      then w.(listener := Splicing, toUpstream := Recorded(w.toUpstream)) else w
    case ReadMore(n) =>
      if w.listener.Splicing? && CanRead(w.toUpstream, w.there, n)
      then w.(toUpstream := Read(w.toUpstream, w.there, n)) else w
    case RecordUp => if w.listener.Splicing? then w.(toUpstream := Recorded(w.toUpstream)) else w
    case ReadUpstream(n) =>
      if w.listener.Splicing? && CanRead(w.toBack, w.upstream, n)
      then w.(toBack := Read(w.toBack, w.upstream, n)) else w
    case RecordDown => if w.listener.Splicing? then w.(toBack := Recorded(w.toBack)) else w
  }

  /** The upstream has a connection to send on. */
  predicate UpstreamOpen(w: World) { w.listener.WritingFirst? || w.listener.Splicing? }

  function Act(w: World, a: Action): World {
    match a
    case WalletSends(bytes) => w.(wallet := w.wallet + bytes)
    case UpstreamSends(bytes) => if UpstreamOpen(w) then w.(upstream := w.upstream + bytes) else w
    case DiallerLeaves => w.(diallerGone := true)
    case ListenerLeaves => w.(listenerGone := true)
    case Dialler(d) => if w.diallerGone then w else DiallerActs(w, d)
    case Listener(l) => if w.listenerGone then w else ListenerActs(w, l)
  }

  function After(header: Header, actions: seq<Action>): World {
    if actions == [] then Begin(header) else Act(After(header, actions[..|actions| - 1]), actions[|actions| - 1])
  }

  // ---------------------------------------------------------------- what every run keeps

  /** What the listening half sends back before any of the upstream's bytes. */
  function EchoOf(header: Header): seq<byte> { if header.echoRequested then Encode(header) else [] }

  /** What a hop wrote and still holds is what came before plus everything it has read past `skip`. */
  ghost predicate Conveys(source: seq<byte>, skip: nat, h: Hop, before: seq<byte>, sink: seq<byte>) {
    skip <= h.read <= |source| && sink + h.held == before + source[skip..h.read]
  }

  /** The bytes read so far are all still in hand. */
  ghost predicate Gathering(source: seq<byte>, h: Hop, sink: seq<byte>) {
    h.read <= |source| && h.held == source[..h.read] && |h.held| <= HEADER_LEN && sink == []
  }

  ghost predicate Up(w: World) {
    && Conveys(w.wallet, 0, w.toStream, Encode(w.header), w.there)
    && (w.dialler.WritingHeader? ==> w.toStream.read == 0)
    && if w.listener.ReadingHeader? then Gathering(w.there, w.toUpstream, w.upstreamGot)
       else Conveys(w.there, HEADER_LEN, w.toUpstream, [], w.upstreamGot)
  }

  ghost predicate Down(w: World) {
    && (if w.listener.ReadingHeader? then w.toBack == FRESH && w.back == []
        else Conveys(w.upstream, 0, w.toBack, EchoOf(w.header), w.back))
    && match w.dialler
       case WritingHeader => w.toWallet == FRESH && w.walletGot == []
       case AwaitingEcho => w.header.echoRequested && Gathering(w.back, w.toWallet, w.walletGot)
       case Carrying => Conveys(w.back, |EchoOf(w.header)|, w.toWallet, [], w.walletGot)
  }

  lemma {:induction false} ReadConveys(source: seq<byte>, skip: nat, h: Hop, n: nat, before: seq<byte>, sink: seq<byte>)
    requires Conveys(source, skip, h, before, sink) && CanRead(h, source, n)
    ensures Conveys(source, skip, Read(h, source, n), before, sink)
  {
    assert sink + [] == sink;
    assert source[skip..h.read + n] == source[skip..h.read] + source[h.read..h.read + n];
  }

  lemma {:induction false} WriteConveys(source: seq<byte>, skip: nat, h: Hop, n: nat, before: seq<byte>,
        sink: seq<byte>)
    requires Conveys(source, skip, h, before, sink) && n <= |h.held|
    ensures Conveys(source, skip, Written(h, n), before, sink + h.held[..n])
  {
    assert sink + h.held[..n] + h.held[n..] == sink + h.held;
  }

  /** More arriving at the source changes nothing already read. */
  lemma {:induction false} MoreConveys(source: seq<byte>, more: seq<byte>, skip: nat, h: Hop, before: seq<byte>,
        sink: seq<byte>)
    ensures Conveys(source, skip, h, before, sink) ==> Conveys(source + more, skip, h, before, sink)
    ensures Gathering(source, h, sink) ==> Gathering(source + more, h, sink)
  {
    if skip <= h.read <= |source| {
      assert (source + more)[skip..h.read] == source[skip..h.read];
    }
    if h.read <= |source| {
      assert (source + more)[..h.read] == source[..h.read];
    }
  }

  lemma {:induction false} GatherGathers(source: seq<byte>, h: Hop, n: nat, sink: seq<byte>)
    requires Gathering(source, h, sink) && CanGather(h, source, n)
    ensures Gathering(source, Gather(h, source, n), sink)
  {
    assert source[..h.read + n] == source[..h.read] + source[h.read..h.read + n];
  }

  /** Our own header, however its bytes arrived, is read as the header that was sent. */
  lemma {:induction false} HeaderArrives(w: World)
    requires Up(w) && w.listener.ReadingHeader? && |w.toUpstream.held| == HEADER_LEN
    ensures w.toUpstream.held == Encode(w.header) && Decode(w.toUpstream.held) == Ok(w.header)
    ensures w.there[HEADER_LEN..w.toUpstream.read] == []
  {
    var all := w.there + w.toStream.held;
    assert all[..HEADER_LEN] == w.there[..HEADER_LEN];
    assert all == Encode(w.header) + w.wallet[0..w.toStream.read];
    assert all[..HEADER_LEN] == Encode(w.header);
    HeaderRoundTrip(w.header);
  }

  /** And so is its echo, so a probe on its own stream is never told of another token. */
  lemma {:induction false} EchoArrives(w: World)
    requires Down(w) && w.dialler.AwaitingEcho? && |w.toWallet.held| == HEADER_LEN
    ensures w.toWallet.held == Encode(w.header) && Decode(w.toWallet.held) == Ok(w.header)
    ensures w.back[HEADER_LEN..w.toWallet.read] == []
  {
    var all := w.back + w.toBack.held;
    assert all[..HEADER_LEN] == w.back[..HEADER_LEN];
    assert all == Encode(w.header) + w.upstream[0..w.toBack.read];
    assert all[..HEADER_LEN] == Encode(w.header);
    HeaderRoundTrip(w.header);
  }

  lemma {:induction false} WriteToStreamKeepsUp(w: World, n: nat)
    requires Up(w)
    ensures Up(DiallerActs(w, WriteToStream(n)))
  {
    if n <= |w.toStream.held| {
      WriteConveys(w.wallet, 0, w.toStream, n, Encode(w.header), w.there);
      MoreConveys(w.there, w.toStream.held[..n], HEADER_LEN, w.toUpstream, [], w.upstreamGot);
    }
  }

  lemma {:induction false} ReadWalletKeepsUp(w: World, n: nat)
    requires Up(w)
    ensures Up(DiallerActs(w, ReadWallet(n)))
  {
    if CanRead(w.toStream, w.wallet, n) {
      ReadConveys(w.wallet, 0, w.toStream, n, Encode(w.header), w.there);
    }
  }

  lemma {:induction false} DiallerKeepsUp(w: World, a: DialAction)
    requires Up(w)
    ensures Up(DiallerActs(w, a))
  {
    match a {
      case WriteToStream(n) => WriteToStreamKeepsUp(w, n);
      case ReadWallet(n) => ReadWalletKeepsUp(w, n);
      case _ =>
    }
  }

  lemma {:induction false} HeaderReadKeepsUp(w: World)
    requires Up(w)
    ensures Up(ListenerActs(w, HeaderRead))
  {
    if w.listener.ReadingHeader? && |w.toUpstream.held| == HEADER_LEN {
      HeaderArrives(w);
      assert w.upstreamGot + [] == [] + [];
    }
  }

  lemma {:induction false} ListenerReadsKeepUp(w: World, a: ServeAction)
    requires Up(w) && (a.ReadHeader? || a.ReadRequest? || a.ReadMore?)
    ensures Up(ListenerActs(w, a))
  {
    if w.listener.ReadingHeader? {
      if CanGather(w.toUpstream, w.there, a.n) {
        GatherGathers(w.there, w.toUpstream, a.n, w.upstreamGot);
      }
    } else if CanRead(w.toUpstream, w.there, a.n) {
      ReadConveys(w.there, HEADER_LEN, w.toUpstream, a.n, [], w.upstreamGot);
    }
  }

  lemma {:induction false} WriteUpstreamKeepsUp(w: World, n: nat)
    requires Up(w)
    ensures Up(ListenerActs(w, WriteUpstream(n)))
  {
    if !w.listener.ReadingHeader? && n <= |w.toUpstream.held| {
      WriteConveys(w.there, HEADER_LEN, w.toUpstream, n, [], w.upstreamGot);
    }
  }

  lemma {:induction false} ListenerKeepsUp(w: World, a: ServeAction)
    requires Up(w)
    ensures Up(ListenerActs(w, a))
  {
    match a {
      case ReadHeader(_) => ListenerReadsKeepUp(w, a);
      case HeaderRead => HeaderReadKeepsUp(w);
      case ReadRequest(_) => ListenerReadsKeepUp(w, a);
      case ReadMore(_) => ListenerReadsKeepUp(w, a);
      case WriteUpstream(n) => WriteUpstreamKeepsUp(w, n);
      case _ =>
    }
  }

  lemma {:induction false} HeaderSentKeepsDown(w: World)
    requires Down(w)
    ensures Down(DiallerActs(w, HeaderSent))
  {
    assert w.back[..0] == [] && w.back[0..0] == [] && w.walletGot + [] == w.walletGot;
  }

  lemma {:induction false} EchoReadKeepsDown(w: World)
    requires Down(w)
    ensures Down(DiallerActs(w, EchoRead))
  {
    if w.dialler.AwaitingEcho? && |w.toWallet.held| == HEADER_LEN {
      EchoArrives(w);
      assert w.walletGot + [] == [] + [];
    }
  }

  lemma {:induction false} DiallerReadsKeepDown(w: World, a: DialAction)
    requires Down(w) && (a.ReadEcho? || a.ReadStream?)
    ensures Down(DiallerActs(w, a))
  {
    if w.dialler.AwaitingEcho? && CanGather(w.toWallet, w.back, a.n) {
      GatherGathers(w.back, w.toWallet, a.n, w.walletGot);
    }
    if w.dialler.Carrying? && CanRead(w.toWallet, w.back, a.n) {
      ReadConveys(w.back, |EchoOf(w.header)|, w.toWallet, a.n, [], w.walletGot);
    }
  }

  lemma {:induction false} WriteWalletKeepsDown(w: World, n: nat)
    requires Down(w)
    ensures Down(DiallerActs(w, WriteWallet(n)))
  {
    if w.dialler.Carrying? && n <= |w.toWallet.held| {
      WriteConveys(w.back, |EchoOf(w.header)|, w.toWallet, n, [], w.walletGot);
    }
  }

  lemma {:induction false} DiallerKeepsDown(w: World, a: DialAction)
    requires Down(w)
    ensures Down(DiallerActs(w, a))
  {
    match a {
      case HeaderSent => HeaderSentKeepsDown(w);
      case ReadEcho(_) => DiallerReadsKeepDown(w, a);
      case EchoRead => EchoReadKeepsDown(w);
      case ReadStream(_) => DiallerReadsKeepDown(w, a);
      case WriteWallet(n) => WriteWalletKeepsDown(w, n);
      case _ =>
    }
  }

  lemma {:induction false} HeaderReadKeepsDown(w: World)
    requires Up(w) && Down(w)
    ensures Down(ListenerActs(w, HeaderRead))
  {
    if w.listener.ReadingHeader? && |w.toUpstream.held| == HEADER_LEN {
      HeaderArrives(w);
      assert w.upstream[0..0] == [] && EchoOf(w.header) + [] == EchoOf(w.header) == [] + EchoOf(w.header);
    }
  }

  lemma {:induction false} WriteBackKeepsDown(w: World, n: nat)
    requires Down(w)
    ensures Down(ListenerActs(w, WriteBack(n)))
  {
    if !w.listener.ReadingHeader? && n <= |w.toBack.held| {
      WriteConveys(w.upstream, 0, w.toBack, n, EchoOf(w.header), w.back);
      MoreConveys(w.back, w.toBack.held[..n], |EchoOf(w.header)|, w.toWallet, [], w.walletGot);
    }
  }

  lemma {:induction false} ReadUpstreamKeepsDown(w: World, n: nat)
    requires Down(w)
    ensures Down(ListenerActs(w, ReadUpstream(n)))
  {
    if w.listener.Splicing? && CanRead(w.toBack, w.upstream, n) {
      ReadConveys(w.upstream, 0, w.toBack, n, EchoOf(w.header), w.back);
    }
  }

  predicate SameWayDown(w: World, v: World) {
    && v.header == w.header && v.dialler == w.dialler && (v.listener.ReadingHeader? <==> w.listener.ReadingHeader?)
    && v.upstream == w.upstream && v.toBack == w.toBack && v.back == w.back
    && v.toWallet == w.toWallet && v.walletGot == w.walletGot
  }

  lemma {:induction false} SameDown(w: World, v: World)
    requires Down(w) && SameWayDown(w, v)
    ensures Down(v)
  {
  }

  /** The rest of what the listening half does is on the way up, or only records. */
  lemma {:induction false} UpLeavesTheWayDown(w: World, a: ServeAction)
    requires !a.HeaderRead? && !a.WriteBack? && !a.ReadUpstream? && !a.RecordDown?
    ensures SameWayDown(w, ListenerActs(w, a))
  {
  }

  lemma {:induction false} RecordKeepsDown(w: World)
    requires Down(w)
    ensures Down(ListenerActs(w, RecordDown))
  {
  }

  lemma {:induction false} ListenerKeepsDown(w: World, a: ServeAction)
    requires Up(w) && Down(w)
    ensures Down(ListenerActs(w, a))
  {
    match a {
      case HeaderRead => HeaderReadKeepsDown(w);
      case WriteBack(n) => WriteBackKeepsDown(w, n);
      case ReadUpstream(n) => ReadUpstreamKeepsDown(w, n);
      case RecordDown => RecordKeepsDown(w);
      case _ =>
        UpLeavesTheWayDown(w, a);
        SameDown(w, ListenerActs(w, a));
    }
  }

  lemma {:induction false} ActKeeps(w: World, a: Action)
    requires Up(w) && Down(w)
    ensures Up(Act(w, a)) && Down(Act(w, a))
  {
    match a {
      case WalletSends(bytes) =>
        MoreConveys(w.wallet, bytes, 0, w.toStream, Encode(w.header), w.there);
      case UpstreamSends(bytes) =>
        MoreConveys(w.upstream, bytes, 0, w.toBack, EchoOf(w.header), w.back);
      case DiallerLeaves =>
      case ListenerLeaves =>
      case Dialler(d) =>
        DiallerKeepsUp(w, d);
        DiallerKeepsDown(w, d);
      case Listener(l) =>
        ListenerKeepsUp(w, l);
        ListenerKeepsDown(w, l);
    }
  }

  lemma {:induction false} ActKeepsHeader(w: World, a: Action)
    ensures Act(w, a).header == w.header
  {
  }

  lemma {:induction false} HeaderNeverChanges(header: Header, actions: seq<Action>)
    ensures After(header, actions).header == header
  {
    if actions != [] {
      HeaderNeverChanges(header, actions[..|actions| - 1]);
      ActKeepsHeader(After(header, actions[..|actions| - 1]), actions[|actions| - 1]);
    }
  }

  lemma {:induction false} EveryRunKeeps(header: Header, actions: seq<Action>)
    ensures Up(After(header, actions)) && Down(After(header, actions))
  {
    if actions == [] {
      var w := Begin(header);
      assert w.wallet[0..0] == [] && [] + w.toStream.held == w.toStream.held + [];
      assert w.there[..0] == [];
    } else {
      EveryRunKeeps(header, actions[..|actions| - 1]);
      ActKeeps(After(header, actions[..|actions| - 1]), actions[|actions| - 1]);
    }
  }

  // ---------------------------------------------------------------- transparency

  /**
   In every run, with the probe on or off: the upstream has received a prefix of exactly what the
   wallet sent, and the wallet a prefix of exactly what the upstream sent.
  */
  lemma {:induction false} BytesArriveUnchanged(header: Header, actions: seq<Action>)
    ensures After(header, actions).upstreamGot <= After(header, actions).wallet
    ensures After(header, actions).walletGot <= After(header, actions).upstream
  {
    EveryRunKeeps(header, actions);
    PrefixUp(After(header, actions));
    PrefixDown(After(header, actions));
  }

  lemma {:induction false} PrefixUp(w: World)
    requires Up(w)
    ensures w.upstreamGot <= w.wallet
  {
    if !w.listener.ReadingHeader? {
      NothingLostUp(w);
      PartOf(w.upstreamGot, w.toUpstream.held + w.there[w.toUpstream.read..] + w.toStream.held,
             w.wallet, w.toStream.read);
    }
  }

  lemma {:induction false} PrefixDown(w: World)
    requires Down(w)
    ensures w.walletGot <= w.upstream
  {
    if w.dialler.Carrying? {
      if w.listener.ReadingHeader? {
        assert w.walletGot + w.toWallet.held == [];
      } else {
        NothingLostDown(w);
        PartOf(w.walletGot, w.toWallet.held + w.back[w.toWallet.read..] + w.toBack.held, w.upstream, w.toBack.read);
      }
    }
  }

  lemma {:induction false} PartOf(part: seq<byte>, rest: seq<byte>, whole: seq<byte>, k: nat)
    requires k <= |whole| && part + rest == whole[..k]
    ensures part <= whole
  {
    assert whole[..|part|] == whole[..k][..|part|] == (part + rest)[..|part|] == part;
  }

  /** Two hops in a row: what the second delivered, holds and has yet to read, and the first holds, is what was sent. */
  lemma {:induction false} TwoHops(sink: seq<byte>, held: seq<byte>, stream: seq<byte>, read: nat, waiting: seq<byte>,
      before: seq<byte>, sent: seq<byte>)
    requires |before| <= read <= |stream|
    requires sink + held == stream[|before|..read]
    requires stream + waiting == before + sent
    ensures sink + (held + stream[read..] + waiting) == sent
  {
    var k := |before|;
    assert sent == (before + sent)[k..] == (stream + waiting)[k..] == stream[k..] + waiting;
    assert stream[k..] == stream[k..read] + stream[read..];
    assert sink + (held + stream[read..] + waiting) == (sink + held) + stream[read..] + waiting;
  }

  /** Nothing the dialling half read is lost on the way up: it is delivered, held, or in flight, in order. */
  lemma {:induction false} NothingLostUp(w: World)
    requires Up(w) && !w.listener.ReadingHeader?
    ensures w.upstreamGot + (w.toUpstream.held + w.there[w.toUpstream.read..] + w.toStream.held)
         == w.wallet[..w.toStream.read]
  {
    TwoHops(w.upstreamGot, w.toUpstream.held, w.there, w.toUpstream.read, w.toStream.held,
            Encode(w.header), w.wallet[..w.toStream.read]);
  }

  /** Nor on the way down, once the echo has been taken. */
  lemma {:induction false} NothingLostDown(w: World)
    requires Down(w) && !w.listener.ReadingHeader? && w.dialler.Carrying?
    ensures w.walletGot + (w.toWallet.held + w.back[w.toWallet.read..] + w.toBack.held)
         == w.upstream[..w.toBack.read]
  {
    TwoHops(w.walletGot, w.toWallet.held, w.back, w.toWallet.read, w.toBack.held,
            EchoOf(w.header), w.upstream[..w.toBack.read]);
  }

  // ---------------------------------------------------------------- our own header is never turned away

  /** The handshake of an undisturbed stream always succeeds: a half is gone only because something made it leave. */
  lemma {:induction false} OnlyLeavingEndsAHalf(header: Header, actions: seq<Action>)
    ensures After(header, actions).diallerGone ==> DiallerLeaves in actions
    ensures After(header, actions).listenerGone ==> ListenerLeaves in actions
  {
    if actions != [] {
      var before, a := actions[..|actions| - 1], actions[|actions| - 1];
      var w := After(header, before);
      OnlyLeavingEndsAHalf(header, before);
      assert forall x :: x in before ==> x in actions;
      EveryRunKeeps(header, before);
      match a {
        case Dialler(d) => DiallerStays(w, d);
        case Listener(l) => ListenerStays(w, l);
        case _ =>
      }
    }
  }

  lemma {:induction false} DiallerStays(w: World, a: DialAction)
    requires Down(w)
    ensures DiallerActs(w, a).diallerGone == w.diallerGone && DiallerActs(w, a).listenerGone == w.listenerGone
  {
    if a.EchoRead? && w.dialler.AwaitingEcho? && |w.toWallet.held| == HEADER_LEN {
      EchoArrives(w);
    }
  }

  lemma {:induction false} ListenerStays(w: World, a: ServeAction)
    requires Up(w)
    ensures ListenerActs(w, a).diallerGone == w.diallerGone && ListenerActs(w, a).listenerGone == w.listenerGone
  {
    if a.HeaderRead? && w.listener.ReadingHeader? && |w.toUpstream.held| == HEADER_LEN {
      HeaderArrives(w);
    }
  }

  // ---------------------------------------------------------------- what the listening half logs

  /** Everything read past the header is recorded or is the chunk in hand. */
  ghost predicate Books(w: World) {
    var h := w.toUpstream;
    if w.listener.ReadingHeader? then h.logged == 0 && h.chunk == 0
    else HEADER_LEN <= h.read && h.logged + h.chunk == h.read - HEADER_LEN && |h.held| <= h.chunk <= BUFFER
  }

  lemma {:induction false} BooksAlwaysHold(header: Header, actions: seq<Action>)
    ensures Books(After(header, actions))
  {
    if actions != [] {
      var w := After(header, actions[..|actions| - 1]);
      BooksAlwaysHold(header, actions[..|actions| - 1]);
      EveryRunKeeps(header, actions[..|actions| - 1]);
      ActKeepsBooks(w, actions[|actions| - 1]);
    }
  }

  lemma {:induction false} DiallerLeavesBooks(w: World, a: DialAction)
    ensures DiallerActs(w, a).toUpstream == w.toUpstream && DiallerActs(w, a).listener == w.listener
  {
  }

  /** What takes bytes in: from the header's end on, they are the chunk in hand. */
  lemma {:induction false} ReadingKeepsBooks(w: World, a: ServeAction)
    requires Books(w) && Up(w)
    requires a.ReadHeader? || a.HeaderRead? || a.ReadRequest? || a.ReadMore?
    ensures Books(ListenerActs(w, a))
  {
  }

  lemma {:induction false} WritingKeepsBooks(w: World, a: ServeAction)
    requires Books(w)
    requires !a.ReadHeader? && !a.HeaderRead? && !a.ReadRequest? && !a.ReadMore?
    ensures Books(ListenerActs(w, a))
  {
  }

  lemma {:induction false} ActKeepsBooks(w: World, a: Action)
    requires Books(w) && Up(w)
    ensures Books(Act(w, a))
  {
    match a {
      case Dialler(d) => DiallerLeavesBooks(w, d);
      case Listener(l) =>
        if l.ReadHeader? || l.HeaderRead? || l.ReadRequest? || l.ReadMore? {
          ReadingKeepsBooks(w, l);
        } else {
          WritingKeepsBooks(w, l);
        }
      case _ =>
    }
  }

  /**
   The total the listening half logs, first chunk included, never exceeds what the upstream was given
   and falls short of it by at most the one chunk being written.
  */
  lemma {:induction false} LoggedTotalIsDelivered(header: Header, actions: seq<Action>)
    ensures var w := After(header, actions);
            && w.toUpstream.logged <= |w.upstreamGot| <= w.toUpstream.logged + BUFFER
            && (w.toUpstream.chunk == 0 ==> |w.upstreamGot| == w.toUpstream.logged)
  {
    var w := After(header, actions);
    EveryRunKeeps(header, actions);
    BooksAlwaysHold(header, actions);
    if !w.listener.ReadingHeader? {
      assert |w.upstreamGot + w.toUpstream.held| == w.toUpstream.read - HEADER_LEN;
    }
  }
}
