/** One direction of a splice: a loop over one reused buffer. */
module Pump {
  import opened Wrappers
  import opened Handshake
  import Splice

  const COPY_BUFFER: nat := 8192

  class Sink {
    var bytes: seq<byte>

    constructor ()
      ensures bytes == []
    {
      bytes := [];
    }
  }

  /** What became of one chunk: `at` is the stamp it is recorded with. */
  datatype Delivery =
    | Delivered(at: nat)
    | WriteFailed(partial: nat, code: int)
    | FlushFailed(code: int)

  /** One turn of the loop: what was read, and how writing it went. */
  datatype Turn = Turn(chunk: seq<byte>, delivery: Delivery)

  /** How reading ends once the turns are over. */
  datatype LastRead = EndOfStream | ReadFailed(code: int)

  predicate PossibleTurn(t: Turn) {
    && 0 < |t.chunk| <= COPY_BUFFER
    && (t.delivery.WriteFailed? ==> t.delivery.partial <= |t.chunk|)
  }

  predicate Possible(turns: seq<Turn>) {
    forall i :: 0 <= i < |turns| ==> PossibleTurn(turns[i])
  }

  /** How many turns are completed before one fails. */
  function Completed(turns: seq<Turn>): (n: nat)
    ensures n <= |turns|
    ensures forall i :: 0 <= i < n ==> turns[i].delivery.Delivered?
    ensures n < |turns| ==> !turns[n].delivery.Delivered?
  {
    if turns == [] || !turns[0].delivery.Delivered? then 0 else 1 + Completed(turns[1..])
  }

  function Bytes(turns: seq<Turn>): seq<byte> {
    if turns == [] then [] else Bytes(turns[..|turns| - 1]) + turns[|turns| - 1].chunk
  }

  /** What a counter shows once these turns are recorded. */
  function Counted(start: u64, turns: seq<Turn>): u64 {
    if turns == [] then start
    else (Counted(start, turns[..|turns| - 1]) + |turns[|turns| - 1].chunk|) % U64_LIMIT
  }

  /** A chunk that was delivered, or what of it got out before writing it failed. */
  function Sent(t: Turn): seq<byte>
    requires t.delivery.WriteFailed? ==> t.delivery.partial <= |t.chunk|
  {
    match t.delivery
    case WriteFailed(partial, _) => t.chunk[..partial]
    case _ => t.chunk
  }

  /** Everything that gets out: the chunks of the completed turns, and what did of the one that failed. */
  function SentBy(turns: seq<Turn>): seq<byte>
    requires Possible(turns)
  {
    var n := Completed(turns);
    if n == |turns| then Bytes(turns) else Bytes(turns[..n]) + Sent(turns[n])
  }

  /**
   One turn: the chunk is read to the front of the buffer, over whatever an earlier one left there,
   and only that much of the buffer is written. It is recorded once it has been flushed.
  */
  method Move(buffer: array<byte>, turn: Turn, writer: Sink, direction: Splice.Direction) returns (failed: Option<int>)
    requires |turn.chunk| <= buffer.Length
    requires turn.delivery.WriteFailed? ==> turn.delivery.partial <= |turn.chunk|
    modifies buffer, writer, direction
    ensures writer.bytes == old(writer.bytes) + Sent(turn)
    ensures failed == if turn.delivery.Delivered? then None else Some(turn.delivery.code)
    ensures turn.delivery.Delivered? ==>
              direction.bytes == (old(direction.bytes) + |turn.chunk|) % U64_LIMIT
              && direction.lastAtMillis == turn.delivery.at
    ensures !turn.delivery.Delivered? ==>
              direction.bytes == old(direction.bytes) && direction.lastAtMillis == old(direction.lastAtMillis)
  {
    var read := |turn.chunk|;
    forall k | 0 <= k < read {
      buffer[k] := turn.chunk[k];
    }
    match turn.delivery {
      case WriteFailed(partial, code) =>
        writer.bytes := writer.bytes + buffer[..partial];
        return Some(code);
      case FlushFailed(code) =>
        writer.bytes := writer.bytes + buffer[..read];
        return Some(code);
      case Delivered(at) =>
        writer.bytes := writer.bytes + buffer[..read];
        direction.Record(read, at);
        return None;
    }
  }

  /** The stamp of the last of these turns. */
  function LastStamp(turns: seq<Turn>, start: nat): nat {
    if turns != [] && turns[|turns| - 1].delivery.Delivered? then turns[|turns| - 1].delivery.at else start
  }

  function EndOf(turns: seq<Turn>, last: LastRead): Splice.Ended {
    var n := Completed(turns);
    if n < |turns| then Splice.Failed(turns[n].delivery.code)
    else match last
         case EndOfStream => Splice.Closed
         case ReadFailed(code) => Splice.Failed(code)
  }

  /** What the sink and the direction hold after these completed turns. */
  ghost predicate Carried(turns: seq<Turn>, was: seq<byte>, bytes: seq<byte>, counted: u64, count: u64,
      stamped: nat, stamp: nat)
  {
    bytes == was + Bytes(turns) && count == Counted(counted, turns) && stamp == LastStamp(turns, stamped)
  }

  lemma {:induction false} CarriedOne(turns: seq<Turn>, i: nat, was: seq<byte>, bytes: seq<byte>,
        counted: u64, count: u64, stamped: nat, stamp: nat)
    requires i < |turns| && turns[i].delivery.Delivered?
    requires Carried(turns[..i], was, bytes, counted, count, stamped, stamp)
    ensures Carried(turns[..i + 1], was, bytes + turns[i].chunk, counted, (count + |turns[i].chunk|) % U64_LIMIT,
                    stamped, turns[i].delivery.at)
  {
    assert turns[..i + 1][..i] == turns[..i];
  }

  /**
   Copies until the source ends or a step fails. What reaches the sink is what was read, in order and
   nothing else, whatever an earlier chunk left in the buffer; what is recorded is the completed
   turns, so a chunk that failed half-way is delivered in part and not counted.
  */
  method Copy(turns: seq<Turn>, last: LastRead, writer: Sink, direction: Splice.Direction) returns (ended: Splice.Ended)
    requires Possible(turns)
    modifies writer, direction
    ensures ended == EndOf(turns, last)
    ensures var whole := turns[..Completed(turns)];
            && direction.bytes == Counted(old(direction.bytes), whole)
            && direction.lastAtMillis == LastStamp(whole, old(direction.lastAtMillis))
            && writer.bytes == old(writer.bytes) + SentBy(turns)
  {
    var buffer := new byte[COPY_BUFFER];
    var i := 0;
    while i < |turns|
      invariant 0 <= i <= Completed(turns)
      invariant buffer.Length == COPY_BUFFER && fresh(buffer)
      invariant Carried(turns[..i], old(writer.bytes), writer.bytes, old(direction.bytes), direction.bytes,
                        old(direction.lastAtMillis), direction.lastAtMillis)
    {
      ghost var bytes, count, stamp := writer.bytes, direction.bytes, direction.lastAtMillis;
      var failed := Move(buffer, turns[i], writer, direction);
      if failed.Some? {
        assert i == Completed(turns) && writer.bytes == old(writer.bytes) + (Bytes(turns[..i]) + Sent(turns[i]));
        return Splice.Failed(failed.value);
      }
      CarriedOne(turns, i, old(writer.bytes), bytes, old(direction.bytes), count, old(direction.lastAtMillis), stamp);
      i := i + 1;
    }
    assert turns[..i] == turns;
    return match last { case EndOfStream => Splice.Closed case ReadFailed(code) => Splice.Failed(code) };
  }

  /** The counter shows exactly the bytes delivered, up to its width. */
  lemma {:induction false} CountedIsDelivered(start: u64, turns: seq<Turn>)
    ensures Counted(start, turns) == (start + |Bytes(turns)|) % U64_LIMIT
  {
    if turns != [] {
      CountedIsDelivered(start, turns[..|turns| - 1]);
      WrapAdd(start + |Bytes(turns[..|turns| - 1])|, |turns[|turns| - 1].chunk|);
    }
  }

  lemma {:induction false} WrapAdd(a: nat, b: nat)
    ensures (a % U64_LIMIT + b) % U64_LIMIT == (a + b) % U64_LIMIT
  {
    var q, r := a / U64_LIMIT, a % U64_LIMIT;
    assert a + b == q * U64_LIMIT + (r + b);
  }

  // ---------------------------------------------------------------- what a pump comes to

  predicate AllDelivered(turns: seq<Turn>) { forall i :: 0 <= i < |turns| ==> turns[i].delivery.Delivered? }

  /** Turn `i` failed with this, and none did before it. */
  predicate FailsAt(turns: seq<Turn>, i: nat, code: int) {
    && i < |turns| && !turns[i].delivery.Delivered? && turns[i].delivery.code == code
    && forall j :: 0 <= j < i ==> turns[j].delivery.Delivered?
  }

  lemma {:induction false} FailureIsTheFirst(turns: seq<Turn>)
    ensures forall i: nat, code :: FailsAt(turns, i, code) ==> Completed(turns) == i
    ensures !AllDelivered(turns) ==> FailsAt(turns, Completed(turns), turns[Completed(turns)].delivery.code)
    ensures AllDelivered(turns) <==> Completed(turns) == |turns|
  {
  }

  /** A pump ends as its first failed write or flush, or else as its last read. */
  lemma {:induction false} PumpEndsAs(turns: seq<Turn>, last: LastRead)
    ensures EndOf(turns, last) == Splice.Closed <==> AllDelivered(turns) && last == EndOfStream
    ensures forall code :: EndOf(turns, last) == Splice.Failed(code) <==>
              (exists i: nat :: FailsAt(turns, i, code)) || (AllDelivered(turns) && last == ReadFailed(code))
  {
    FailureIsTheFirst(turns);
  }

  /** What gets out: every chunk up to a failure, and of the one that failed what was written before it. */
  lemma {:induction false} PumpSends(turns: seq<Turn>, i: nat, code: int)
    requires Possible(turns)
    ensures AllDelivered(turns) ==> SentBy(turns) == Bytes(turns)
    ensures FailsAt(turns, i, code) ==>
              SentBy(turns) == Bytes(turns[..i]) + match turns[i].delivery
                                                   case WriteFailed(partial, _) => turns[i].chunk[..partial]
                                                   case FlushFailed(_) => turns[i].chunk
  {
    FailureIsTheFirst(turns);
  }
}
