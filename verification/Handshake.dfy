/** The header both halves exchange before a wallet byte moves, and the probe built on it. */
module Handshake {
  import opened Wrappers

  type byte = b: int | 0 <= b < 256

  /** The four bytes "LWMP". */
  const MAGIC: seq<byte> := [0x4C, 0x57, 0x4D, 0x50]
  const VERSION: byte := 1
  const FLAG_ECHO: byte := 1
  const HEADER_LEN: nat := 14

  datatype Header = Header(echoRequested: bool, token: u64)

  datatype HandshakeError =
    | TimedOut
    | Read
    | Write
    | ForeignStream
    | UnsupportedVersion(version: byte)
    | TokenMismatch(sent: u64, returned: u64)

  // ---------------------------------------------------------------- the wire format

  function Pow256(width: nat): nat { if width == 0 then 1 else 256 * Pow256(width - 1) }

  function BigEndian(n: nat, width: nat): (bytes: seq<byte>)
    ensures |bytes| == width
  {
    if width == 0 then [] else BigEndian(n / 256, width - 1) + [n % 256]
  }

  function FromBigEndian(bytes: seq<byte>): (n: nat)
    ensures n < Pow256(|bytes|)
  {
    if bytes == [] then 0 else 256 * FromBigEndian(bytes[..|bytes| - 1]) + bytes[|bytes| - 1]
  }

  lemma {:induction false} EightBytesHoldU64()
    ensures Pow256(8) == U64_LIMIT
  {
    assert Pow256(4) == 0x1_0000_0000;
  }

  function Encode(h: Header): (bytes: seq<byte>)
    ensures |bytes| == HEADER_LEN
  {
    MAGIC + [VERSION, if h.echoRequested then FLAG_ECHO else 0] + BigEndian(h.token, 8)
  }

  /** Bit 0 of the flags asks for the echo; the other seven are not looked at. */
  function Decode(bytes: seq<byte>): Result<Header, HandshakeError>
    requires |bytes| == HEADER_LEN
  {
    if bytes[0..4] != MAGIC then Err(ForeignStream)
    else if bytes[4] != VERSION then Err(UnsupportedVersion(bytes[4]))
    else
      EightBytesHoldU64();
      Ok(Header(bytes[5] % 2 == 1, FromBigEndian(bytes[6..14])))
  }

  lemma {:induction false} ValueOfBigEndian(n: nat, width: nat)
    requires n < Pow256(width)
    ensures FromBigEndian(BigEndian(n, width)) == n
  {
    if width > 0 {
      var high := BigEndian(n / 256, width - 1);
      ValueOfBigEndian(n / 256, width - 1);
      assert (high + [n % 256])[..width - 1] == high;
    }
  }

  lemma {:induction false} BigEndianOfValue(bytes: seq<byte>)
    ensures BigEndian(FromBigEndian(bytes), |bytes|) == bytes
  {
    if bytes != [] {
      var high, low := bytes[..|bytes| - 1], bytes[|bytes| - 1];
      BigEndianOfValue(high);
      SplitLowByte(FromBigEndian(high), low);
      assert bytes == high + [low];
    }
  }

  lemma {:induction false} SplitLowByte(high: nat, low: byte)
    ensures (256 * high + low) / 256 == high && (256 * high + low) % 256 == low
  {
  }

  /** A header survives the wire, for every flag and every 64-bit token. */
  lemma {:induction false} HeaderRoundTrip(h: Header)
    ensures Decode(Encode(h)) == Ok(h)
  {
    EightBytesHoldU64();
    ValueOfBigEndian(h.token, 8);
    assert Encode(h)[0..4] == MAGIC;
    assert Encode(h)[6..14] == BigEndian(h.token, 8);
  }

  /** Four bytes, the highest first. */
  function Word(a: nat, b: nat, c: nat, d: nat): nat { 0x100_0000 * a + 0x1_0000 * b + 0x100 * c + d }

  lemma {:induction false} FourBytes(bytes: seq<byte>, n: nat)
    requires n + 4 <= |bytes|
    ensures FromBigEndian(bytes[..n + 4])
         == 0x1_0000_0000 * FromBigEndian(bytes[..n]) + Word(bytes[n], bytes[n + 1], bytes[n + 2], bytes[n + 3])
  {
    OneByte(bytes, n);
    OneByte(bytes, n + 1);
    OneByte(bytes, n + 2);
    OneByte(bytes, n + 3);
  }

  lemma {:induction false} OneByte(bytes: seq<byte>, n: nat)
    requires n < |bytes|
    ensures FromBigEndian(bytes[..n + 1]) == 256 * FromBigEndian(bytes[..n]) + bytes[n]
  {
    assert bytes[..n + 1][..n] == bytes[..n];
  }

  /** The fourteen bytes: the magic, the version, the flag, and the token with its highest byte first. */
  lemma {:induction false} WireLayout(h: Header)
    ensures Encode(h)[..6] == [0x4C, 0x57, 0x4D, 0x50, 1, if h.echoRequested then 1 else 0]
    ensures var b := Encode(h)[6..];
            h.token == 0x1_0000_0000 * Word(b[0], b[1], b[2], b[3]) + Word(b[4], b[5], b[6], b[7])
  {
    var b := BigEndian(h.token, 8);
    EightBytesHoldU64();
    ValueOfBigEndian(h.token, 8);
    assert Encode(h)[6..] == b;
    FourBytes(b, 0);
    FourBytes(b, 4);
    assert b[..0] == [] && b[..8] == b;
  }

  /** Only the lowest flag bit is looked at, and only by the flag it asks for. */
  lemma {:induction false} UnusedBitsAreIgnored(bytes: seq<byte>, flags: byte)
    requires |bytes| == HEADER_LEN && Decode(bytes).Ok?
    ensures Decode(bytes[5 := flags]) == Ok(Decode(bytes).value.(echoRequested := flags % 2 == 1))
  {
    var other := bytes[5 := flags];
    assert other[0..4] == bytes[0..4] && other[6..14] == bytes[6..14];
  }

  /** Echoing an accepted header gives back the bytes it came in as exactly when the unused flag bits were clear. */
  lemma {:induction false} EchoIsVerbatimIff(bytes: seq<byte>)
    requires |bytes| == HEADER_LEN && Decode(bytes).Ok?
    ensures Encode(Decode(bytes).value) == bytes <==> bytes[5] / 2 == 0
  {
    var again := Encode(Decode(bytes).value);
    EightBytesHoldU64();
    BigEndianOfValue(bytes[6..14]);
    assert again[6..14] == BigEndian(FromBigEndian(bytes[6..14]), 8) == bytes[6..14];
    assert again[0..4] == MAGIC == bytes[0..4];
    assert again[4] == bytes[4];
    assert again == again[0..4] + [again[4], again[5]] + again[6..14];
    assert bytes == bytes[0..4] + [bytes[4], bytes[5]] + bytes[6..14];
  }

  /** What is accepted: our magic and our version, whatever follows; the magic is judged first. */
  lemma {:induction false} AcceptedIff(bytes: seq<byte>)
    requires |bytes| == HEADER_LEN
    ensures Decode(bytes).Ok? <==> MAGIC + [VERSION] <= bytes
    ensures Decode(bytes) == Err(ForeignStream) <==> !(MAGIC <= bytes)
    ensures forall v: byte :: Decode(bytes) == Err(UnsupportedVersion(v)) <==> MAGIC + [v] <= bytes && v != VERSION
  {
    assert MAGIC <= bytes <==> bytes[0..4] == MAGIC;
    forall v: byte ensures MAGIC + [v] <= bytes <==> MAGIC <= bytes && bytes[4] == v {
      assert (MAGIC + [v])[4] == v;
      if MAGIC + [v] <= bytes {
        assert bytes[..5] == MAGIC + [v];
        assert bytes[..4] == bytes[..5][..4] == MAGIC;
      }
      if MAGIC <= bytes && bytes[4] == v {
        assert bytes[..5] == bytes[..4] + [bytes[4]];
      }
    }
  }

  // ---------------------------------------------------------------- tokens

  /** The token of the k-th header this process builds, counting from zero; the counter wraps. */
  function TokenOf(k: nat): u64 { (1 + k) % U64_LIMIT }

  class Tokens {
    var next: u64
    ghost var issued: nat

    ghost predicate Valid() reads this { next == TokenOf(issued) }

    constructor ()
      ensures Valid() && issued == 0
    {
      next, issued := 1, 0;
    }

    method Next(echoRequested: bool) returns (h: Header)
      requires Valid()
      modifies this
      ensures Valid() && issued == old(issued) + 1
      ensures h == Header(echoRequested, TokenOf(old(issued)))
    {
      h := Header(echoRequested, next);
      next := (next + 1) % U64_LIMIT;
      issued := issued + 1;
    }
  }

  /** Tokens start at one and go up by one. */
  lemma {:induction false} TokensCountUp(k: nat)
    ensures TokenOf(0) == 1
    ensures TokenOf(k + 1) == if TokenOf(k) == 0xFFFF_FFFF_FFFF_FFFF then 0 else TokenOf(k) + 1
  {
  }

  /** Two headers share a token exactly when they are a multiple of 2^64 apart. */
  lemma {:induction false} TokensCollideIff(j: nat, k: nat)
    ensures TokenOf(j) == TokenOf(k) <==> (j as int - k) % U64_LIMIT == 0
  {
    var a, b := 1 + j, 1 + k;
    assert a == U64_LIMIT * (a / U64_LIMIT) + TokenOf(j);
    assert b == U64_LIMIT * (b / U64_LIMIT) + TokenOf(k);
    if TokenOf(j) == TokenOf(k) {
      assert j as int - k == U64_LIMIT * (a / U64_LIMIT - b / U64_LIMIT);
    }
  }

  lemma {:induction false} FewHeadersNeverCollide(j: nat, k: nat)
    requires j < U64_LIMIT && k < U64_LIMIT && TokenOf(j) == TokenOf(k)
    ensures j == k
  {
    TokensCollideIff(j, k);
  }

  // ---------------------------------------------------------------- the exchange, on one stream

  /** What a stream does once the bytes that arrive in time have been read. */
  datatype Tail = Silent | Broken

  /** What gets onto a stream when a header is written to it: all of it, or as much as went before the failure. */
  function Put(h: Header, writable: bool, partial: nat): seq<byte> {
    if writable then Encode(h) else Encode(h)[..Min(partial, HEADER_LEN)]
  }

  /**
   One end of a stream: what will arrive before the deadline, and what this end has written. A stream
   that is not writable fails once `partial` bytes are out.
  */
  class Stream {
    var incoming: seq<byte>
    var outgoing: seq<byte>
    const tail: Tail
    const writable: bool
    const partial: nat

    constructor (incoming: seq<byte>, tail: Tail, writable: bool, partial: nat)
      ensures this.incoming == incoming && outgoing == []
      ensures this.tail == tail && this.writable == writable && this.partial == partial
    {
      this.incoming, this.outgoing, this.tail, this.writable, this.partial := incoming, [], tail, writable, partial;
    }

    method WriteHeader(h: Header) returns (ok: bool)
      modifies this
      ensures ok == writable && incoming == old(incoming)
      ensures outgoing == old(outgoing) + Put(h, writable, partial)
    {
      var bytes := Encode(h);
      if !writable {
        outgoing := outgoing + bytes[..Min(partial, |bytes|)];
        return false;
      }
      outgoing := outgoing + bytes;
      return true;
    }

    /** Takes the header's bytes and not one more. */
    method ReadHeader() returns (r: Result<Header, HandshakeError>)
      modifies this
      ensures outgoing == old(outgoing)
      ensures r == HeaderOf(old(incoming), tail)
      ensures incoming == old(incoming)[Min(HEADER_LEN, |old(incoming)|)..]
    {
      if |incoming| < HEADER_LEN {
        incoming := [];
        return Err(match tail { case Silent => TimedOut case Broken => Read });
      }
      var bytes := incoming[..HEADER_LEN];
      incoming := incoming[HEADER_LEN..];
      return Decode(bytes);
    }
  }

  function HeaderOf(arriving: seq<byte>, tail: Tail): Result<Header, HandshakeError> {
    if |arriving| >= HEADER_LEN then Decode(arriving[..HEADER_LEN])
    else Err(match tail { case Silent => TimedOut case Broken => Read })
  }

  /**
   What one end puts on a stream is what the other reads from it, whatever follows; of a write that failed
   it reads a header exactly when all of one got out.
  */
  lemma {:induction false} WrittenIsRead(h: Header, writable: bool, partial: nat, more: seq<byte>, tail: Tail)
    ensures writable ==> HeaderOf(Put(h, writable, partial) + more, tail) == Ok(h)
    ensures !writable ==> (HeaderOf(Put(h, writable, partial), tail) == Ok(h) <==> HEADER_LEN <= partial)
    ensures !writable && partial < HEADER_LEN ==>
              HeaderOf(Put(h, writable, partial), tail) == Err(if tail == Silent then TimedOut else Read)
  {
    HeaderRoundTrip(h);
    assert (Encode(h) + more)[..HEADER_LEN] == Encode(h);
    assert Encode(h)[..HEADER_LEN] == Encode(h);
  }

  /** A stream that ends before a header says why: silence is a deadline, and anything else a failed read. */
  lemma {:induction false} ShortReadIs(arriving: seq<byte>, tail: Tail)
    ensures HeaderOf(arriving, tail) == Err(TimedOut) <==> |arriving| < 14 && tail == Silent
    ensures HeaderOf(arriving, tail) == Err(Read) <==> |arriving| < 14 && tail == Broken
    ensures |arriving| >= 14 ==> HeaderOf(arriving, tail) == Decode(arriving[..14])
  {
  }

  /** One probe: a fresh header out, and the same token expected back. */
  method Probe(stream: Stream, tokens: Tokens) returns (r: Result<Header, HandshakeError>)
    requires tokens.Valid()
    modifies stream, tokens
    ensures tokens.Valid() && tokens.issued == old(tokens.issued) + 1
    ensures var sent := Header(true, TokenOf(old(tokens.issued)));
            && stream.outgoing == old(stream.outgoing) + Put(sent, stream.writable, stream.partial)
            && (!stream.writable ==> r == Err(Write) && stream.incoming == old(stream.incoming))
            && (stream.writable ==>
                  && stream.incoming == old(stream.incoming)[Min(HEADER_LEN, |old(stream.incoming)|)..]
                  && r == match HeaderOf(old(stream.incoming), stream.tail)
                          case Err(error) => Err(error)
                          case Ok(echoed) =>
                            if echoed.token == sent.token then Ok(sent)
                            else Err(TokenMismatch(sent.token, echoed.token)))
  {
    var sent := tokens.Next(true);
    var written := stream.WriteHeader(sent);
    if !written {
      return Err(Write);
    }
    var echoed := stream.ReadHeader();
    if echoed.Err? {
      return Err(echoed.error);
    }
    if echoed.value.token != sent.token {
      return Err(TokenMismatch(sent.token, echoed.value.token));
    }
    return Ok(sent);
  }

  /** Send a header that asks for nothing back. */
  method Announce(stream: Stream, tokens: Tokens) returns (r: Result<(), HandshakeError>)
    requires tokens.Valid()
    modifies stream, tokens
    ensures tokens.Valid() && tokens.issued == old(tokens.issued) + 1
    ensures stream.incoming == old(stream.incoming)
    ensures var sent := Header(false, TokenOf(old(tokens.issued)));
            stream.outgoing == old(stream.outgoing) + Put(sent, stream.writable, stream.partial)
    ensures r == if stream.writable then Ok(()) else Err(Write)
  {
    var header := tokens.Next(false);
    var written := stream.WriteHeader(header);
    return if written then Ok(()) else Err(Write);
  }

  /** Read the dialler's header, and give it back when asked to. */
  method Accept(stream: Stream) returns (r: Result<Header, HandshakeError>)
    modifies stream
    ensures var header := HeaderOf(old(stream.incoming), stream.tail);
            && stream.incoming == old(stream.incoming)[Min(HEADER_LEN, |old(stream.incoming)|)..]
            && (header.Err? || !header.value.echoRequested ==> r == header && stream.outgoing == old(stream.outgoing))
            && (header.Ok? && header.value.echoRequested ==>
                  && r == (if stream.writable then header else Err(Write))
                  && stream.outgoing == old(stream.outgoing) + Put(header.value, stream.writable, stream.partial))
  {
    r := stream.ReadHeader();
    if r.Ok? && r.value.echoRequested {
      var written := stream.WriteHeader(r.value);
      if !written {
        r := Err(Write);
      }
    }
  }

  // ---------------------------------------------------------------- no cross-talk

  /** An echo on the network: what an acceptor wrote, and which header it had read. */
  datatype Echo = Echo(origin: nat, bytes: seq<byte>)

  /** Every header built, every echo written, and which echo each successful probe was given. */
  datatype Network = Network(headers: seq<Header>, echoes: seq<Echo>, answered: map<nat, nat>)

  /** Honest acceptors and a network that may copy, reorder and misdeliver. */
  datatype Move =
    | Build(echoRequested: bool)
    | AcceptAndEcho(header: nat)
    | Deliver(probe: nat, echo: nat)

  function Play(n: Network, m: Move): Network {
    match m
    case Build(echoRequested) => n.(headers := n.headers + [Header(echoRequested, TokenOf(|n.headers|))])
    case AcceptAndEcho(k) =>
      if k < |n.headers| && HeaderOf(Encode(n.headers[k]), Silent).Ok?
         && HeaderOf(Encode(n.headers[k]), Silent).value.echoRequested
      then n.(echoes := n.echoes + [Echo(k, Encode(HeaderOf(Encode(n.headers[k]), Silent).value))])
      else n
    case Deliver(k, e) =>
      if k < |n.headers| && e < |n.echoes| && n.headers[k].echoRequested && k !in n.answered
         && HeaderOf(n.echoes[e].bytes, Silent).Ok?
         && HeaderOf(n.echoes[e].bytes, Silent).value.token == n.headers[k].token
      then n.(answered := n.answered[k := e])
      else n
  }

  function Played(moves: seq<Move>): Network {
    if moves == [] then Network([], [], map[]) else Play(Played(moves[..|moves| - 1]), moves[|moves| - 1])
  }

  ghost predicate NetworkOk(n: Network) {
    && (forall k :: 0 <= k < |n.headers| ==> n.headers[k].token == TokenOf(k))
    && (forall e :: 0 <= e < |n.echoes| ==>
          n.echoes[e].origin < |n.headers| && n.echoes[e].bytes == Encode(n.headers[n.echoes[e].origin]))
    && (forall k :: k in n.answered ==>
          k < |n.headers| && n.answered[k] < |n.echoes|
          && n.headers[k].token == n.headers[n.echoes[n.answered[k]].origin].token)
  }

  lemma {:induction false} EchoIsTheHeader(h: Header)
    ensures HeaderOf(Encode(h), Silent) == Ok(h)
  {
    HeaderRoundTrip(h);
    assert Encode(h)[..HEADER_LEN] == Encode(h);
  }

  lemma {:induction false} BuildKeepsNetwork(n: Network, echoRequested: bool)
    requires NetworkOk(n)
    ensures NetworkOk(Play(n, Build(echoRequested)))
  {
    assert n.headers <= Play(n, Build(echoRequested)).headers;
  }

  lemma {:induction false} EchoingKeepsNetwork(n: Network, k: nat)
    requires NetworkOk(n)
    ensures NetworkOk(Play(n, AcceptAndEcho(k)))
  {
    if k < |n.headers| {
      EchoIsTheHeader(n.headers[k]);
      var m := Play(n, AcceptAndEcho(k));
      assert m.headers == n.headers && n.echoes <= m.echoes;
    }
  }

  lemma {:induction false} DeliveringKeepsNetwork(n: Network, k: nat, e: nat)
    requires NetworkOk(n)
    ensures NetworkOk(Play(n, Deliver(k, e)))
  {
    if e < |n.echoes| {
      EchoIsTheHeader(n.headers[n.echoes[e].origin]);
    }
  }

  lemma {:induction false} PlayKeepsNetwork(n: Network, m: Move)
    requires NetworkOk(n)
    ensures NetworkOk(Play(n, m))
  {
    match m
    case Build(echoRequested) => BuildKeepsNetwork(n, echoRequested);
    case AcceptAndEcho(k) => EchoingKeepsNetwork(n, k);
    case Deliver(k, e) => DeliveringKeepsNetwork(n, k, e);
  }

  lemma {:induction false} EveryPlayKeepsNetwork(moves: seq<Move>)
    ensures NetworkOk(Played(moves))
  {
    if moves != [] {
      EveryPlayKeepsNetwork(moves[..|moves| - 1]);
      PlayKeepsNetwork(Played(moves[..|moves| - 1]), moves[|moves| - 1]);
    }
  }

  /**
   While fewer than 2^64 headers have been built, a probe that succeeds was given the echo of its own
   header, however echoes were routed between probes.
  */
  lemma {:induction false} NoCrossTalk(moves: seq<Move>, k: nat)
    requires |Played(moves).headers| <= U64_LIMIT
    requires k in Played(moves).answered
    ensures var n := Played(moves);
            && k < |n.headers| && n.answered[k] < |n.echoes|
            && n.echoes[n.answered[k]] == Echo(k, Encode(n.headers[k]))
            && n.headers[k].echoRequested
  {
    var n := Played(moves);
    EveryPlayKeepsNetwork(moves);
    FewHeadersNeverCollide(k, n.echoes[n.answered[k]].origin);
    OnlyProbesAreAnswered(moves, k);
  }

  /** A probe is answered by what it is delivered exactly when that is the echo of its own header. */
  lemma {:induction false} AnsweredByOwnEchoIff(moves: seq<Move>, k: nat, e: nat)
    requires |Played(moves).headers| <= U64_LIMIT
    requires var n := Played(moves);
             k < |n.headers| && n.headers[k].echoRequested && k !in n.answered && e < |n.echoes|
    ensures k in Played(moves + [Deliver(k, e)]).answered <==> Played(moves).echoes[e].origin == k
  {
    var n := Played(moves);
    EveryPlayKeepsNetwork(moves);
    EchoIsTheHeader(n.headers[n.echoes[e].origin]);
    assert (moves + [Deliver(k, e)])[..|moves|] == moves;
    if TokenOf(k) == TokenOf(n.echoes[e].origin) {
      FewHeadersNeverCollide(k, n.echoes[e].origin);
    }
  }

  /** And it can be: a header that asks for its echo is echoed, and the echo answers it. */
  lemma {:induction false} EveryProbeCanBeAnswered(moves: seq<Move>)
    ensures var k := |Played(moves).headers|;
            var e := |Played(moves).echoes|;
            var n := Played(moves + [Build(true)] + [AcceptAndEcho(k)] + [Deliver(k, e)]);
            && k < |n.headers| && e < |n.echoes| && k in n.answered && n.answered[k] == e
            && n.echoes[e] == Echo(k, Encode(n.headers[k]))
    ensures Played(moves + [Build(false)] + [AcceptAndEcho(|Played(moves).headers|)]).echoes == Played(moves).echoes
  {
    var k, e := |Played(moves).headers|, |Played(moves).echoes|;
    PlayedSnoc(moves, Build(true));
    PlayedSnoc(moves + [Build(true)], AcceptAndEcho(k));
    PlayedSnoc(moves + [Build(true)] + [AcceptAndEcho(k)], Deliver(k, e));
    PlayedSnoc(moves, Build(false));
    PlayedSnoc(moves + [Build(false)], AcceptAndEcho(k));
    EveryPlayKeepsNetwork(moves);
    EchoIsTheHeader(Header(true, TokenOf(k)));
    EchoIsTheHeader(Header(false, TokenOf(k)));
  }

  lemma {:induction false} PlayedSnoc(moves: seq<Move>, m: Move)
    ensures Played(moves + [m]) == Play(Played(moves), m)
  {
    assert (moves + [m])[..|moves|] == moves;
  }

  lemma {:induction false} OnlyProbesAreAnswered(moves: seq<Move>, k: nat)
    requires k in Played(moves).answered
    ensures k < |Played(moves).headers| && Played(moves).headers[k].echoRequested
  {
    if moves != [] && k in Played(moves[..|moves| - 1]).answered {
      OnlyProbesAreAnswered(moves[..|moves| - 1], k);
    }
  }
}
