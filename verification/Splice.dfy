/**
 The watchdog of a splice: what one tick reads, what it decides, and the select loop that ticks it.

 Durations are whole nanoseconds; stamps are milliseconds since the splice began. What the sockets
 and the clock do is a script of events: a chunk written to the far side, a chunk heard from it, or
 a tick, each with the stamp it is given.
*/
module Splice {
  import opened Wrappers

  type Duration = nat

  const NANOS_PER_MILLI: nat := 1_000_000
  const IDLE_PERIOD: Duration := 3_600_000_000_000
  const FLOOR: Duration := 100_000_000
  const CEILING: Duration := 5_000_000_000

  datatype Deadlines = Deadlines(stall: Option<Duration>, idle: Option<Duration>)

  datatype Ended = Closed | Stalled(after: Duration) | Idle(after: Duration) | Failed(code: int)

  datatype Transfer = Transfer(toRemote: u64, fromRemote: u64)

  datatype Event = Out(n: nat, at: nat) | In(n: nat, at: nat) | Tick(at: nat)

  function AsMillis(d: Duration): (m: u64)
    ensures m * NANOS_PER_MILLI <= d
    ensures m < U64_LIMIT - 1 ==> d < (m + 1) * NANOS_PER_MILLI
  {
    var m := d / NANOS_PER_MILLI;
    if m < U64_LIMIT then m else U64_LIMIT - 1
  }

  // ---------------------------------------------------------------- what one tick decides

  /** Something was written that the last answer, if any, is older than. */
  predicate Outstanding(wrote: Option<nat>, heard: Option<nat>) {
    wrote.Some? && (heard.Some? ==> heard.value < wrote.value)
  }

  function NextSince(since: Option<nat>, wrote: Option<nat>, heard: Option<nat>): Option<nat> {
    if Outstanding(wrote, heard) then Some(Max(since.GetOr(wrote.value), heard.GetOr(0))) else None
  }

  /** The stamp of the latest movement either way; a splice that never moved counts from zero. */
  function LatestMove(wrote: Option<nat>, heard: Option<nat>): nat {
    Max(wrote.GetOr(0), heard.GetOr(0))
  }

  predicate Expired(now: nat, from: nat, deadline: Option<Duration>) {
    deadline.Some? && SaturatingSub(now, from) >= AsMillis(deadline.value)
  }

  /** The verdict of a tick at `now` that left the stall clock at `since`. */
  function Verdict(w: Deadlines, since: Option<nat>, now: nat, wrote: Option<nat>, heard: Option<nat>): Option<Ended> {
    if since.Some? && Expired(now, since.value, w.stall) then Some(Stalled(w.stall.value))
    else if Expired(now, LatestMove(wrote, heard), w.idle) then Some(Idle(w.idle.value))
    else None
  }

  /** How often the deadlines are checked. */
  function CheckPeriod(w: Deadlines): Duration {
    if w.stall.None? && w.idle.None? then IDLE_PERIOD
    else Max(FLOOR, Min(CEILING, SmallestDeadline(w) / 4))
  }

  function SmallestDeadline(w: Deadlines): Duration
    requires w.stall.Some? || w.idle.Some?
  {
    if w.stall.None? then w.idle.value
    else if w.idle.None? then w.stall.value
    else Min(w.stall.value, w.idle.value)
  }

  // ---------------------------------------------------------------- the state a splice keeps

  /** How much one direction has carried, and when it last did. */
  class Direction {
    var bytes: u64
    var lastAtMillis: nat

    constructor ()
      ensures bytes == 0 && lastAtMillis == 0
    {
      bytes, lastAtMillis := 0, 0;
    }

    function MovedAt(): Option<nat>
      reads this
    {
      Moved(bytes, lastAtMillis)
    }

    method Record(moved: nat, now: nat)
      modifies this
      ensures lastAtMillis == now
      ensures bytes == (old(bytes) + moved) % U64_LIMIT
    {
      lastAtMillis := now;
      bytes := (bytes + moved) % U64_LIMIT;
    }
  }

  /** The byte count, and not the stamp, is what tells "never moved" from "moved at once". */
  function Moved(bytes: u64, at: nat): Option<nat> {
    if bytes > 0 then Some(at) else None
  }

  class StallClock {
    var sinceMillis: Option<nat>

    constructor ()
      ensures sinceMillis == None
    {
      sinceMillis := None;
    }
  }

  method Tripped(w: Deadlines, clock: StallClock, toRemote: Direction, fromRemote: Direction, now: nat)
    returns (verdict: Option<Ended>)
    modifies clock
    ensures clock.sinceMillis == NextSince(old(clock.sinceMillis), toRemote.MovedAt(), fromRemote.MovedAt())
    ensures verdict == Verdict(w, clock.sinceMillis, now, toRemote.MovedAt(), fromRemote.MovedAt())
  {
    var wrote := toRemote.MovedAt();
    var heard := fromRemote.MovedAt();
    if wrote.Some? && (heard.None? || heard.value < wrote.value) {
      if clock.sinceMillis.None? {
        clock.sinceMillis := wrote;
      }
      var since := Max(clock.sinceMillis.value, heard.GetOr(0));
      clock.sinceMillis := Some(since);
      if w.stall.Some? && SaturatingSub(now, since) >= AsMillis(w.stall.value) {
        return Some(Stalled(w.stall.value));
      }
    } else {
      clock.sinceMillis := None;
    }
    var latest := if wrote.None? then heard.GetOr(0)
                  else if heard.None? then wrote.value
                  else Max(wrote.value, heard.value);
    if w.idle.Some? && SaturatingSub(now, latest) >= AsMillis(w.idle.value) {
      return Some(Idle(w.idle.value));
    }
    return None;
  }

  // ---------------------------------------------------------------- a whole splice

  /** Everything a splice holds, as a value. */
  datatype Activity = Activity(outBytes: u64, outAt: nat, inBytes: u64, inAt: nat, since: Option<nat>) {
    function Wrote(): Option<nat> { Moved(outBytes, outAt) }
    function Heard(): Option<nat> { Moved(inBytes, inAt) }
  }

  function Step(a: Activity, e: Event): Activity {
    match e
    case Out(n, at) => a.(outBytes := (a.outBytes + n) % U64_LIMIT, outAt := at)
    case In(n, at) => a.(inBytes := (a.inBytes + n) % U64_LIMIT, inAt := at)
    case Tick(_) => a.(since := NextSince(a.since, a.Wrote(), a.Heard()))
  }

  function After(run: seq<Event>): Activity {
    if run == [] then Activity(0, 0, 0, 0, None)
    else Step(After(run[..|run| - 1]), run[|run| - 1])
  }

  /** What a tick at `now` decides once `run` has happened. */
  function VerdictAt(w: Deadlines, run: seq<Event>, now: nat): Option<Ended> {
    var a := After(run + [Tick(now)]);
    Verdict(w, a.since, now, a.Wrote(), a.Heard())
  }

  predicate TripsAt(w: Deadlines, script: seq<Event>, i: nat)
    requires i < |script|
  {
    script[i].Tick? && VerdictAt(w, script[..i], script[i].at).Some?
  }

  /** The splice was cut off by the k-th event, a tick whose verdict is `ended`, and by none before. */
  ghost predicate CutOffAt(w: Deadlines, script: seq<Event>, k: nat, ended: Ended) {
    && k < |script| && TripsAt(w, script, k) && Some(ended) == VerdictAt(w, script[..k], script[k].at)
    && forall i :: 0 <= i < k ==> !TripsAt(w, script, i)
  }

  /** The first tick that trips gave `ended`; or none does, and the splice ended as its pumps did. */
  ghost predicate EndsAs(w: Deadlines, script: seq<Event>, last: Ended, ended: Ended) {
    || (exists k: nat :: CutOffAt(w, script, k, ended))
    || ((forall i :: 0 <= i < |script| ==> !TripsAt(w, script, i)) && ended == last)
  }

  /**
   Copy both ways until a pump ends or the watchdog trips. The script is what happens while both
   pumps run; `last` is how the first pump to end did so.
  */
  method Run(w: Deadlines, script: seq<Event>, last: Ended) returns (transfer: Transfer, ended: Ended, seen: nat)
    requires last.Closed? || last.Failed?
    ensures seen <= |script|
    ensures forall i :: 0 <= i < seen ==> !TripsAt(w, script, i)
    ensures seen == |script| ==> ended == last
    ensures seen < |script| ==> CutOffAt(w, script, seen, ended)
    ensures transfer == Transfer(After(script[..seen]).outBytes, After(script[..seen]).inBytes)
  {
    var toRemote := new Direction();
    var fromRemote := new Direction();
    var clock := new StallClock();
    seen := 0;
    while seen < |script|
      invariant 0 <= seen <= |script|
      invariant toRemote != fromRemote && fresh(toRemote) && fresh(fromRemote) && fresh(clock)
      invariant After(script[..seen])
                == Activity(toRemote.bytes, toRemote.lastAtMillis,
                            fromRemote.bytes, fromRemote.lastAtMillis, clock.sinceMillis)
      invariant forall i :: 0 <= i < seen ==> !TripsAt(w, script, i)
    {
      var e := script[seen];
      assert script[..seen + 1] == script[..seen] + [e];
      assert script[..seen + 1][..seen] == script[..seen];
      match e {
        case Out(n, at) =>
          toRemote.Record(n, at);
        case In(n, at) =>
          fromRemote.Record(n, at);
        case Tick(at) =>
          var verdict := Tripped(w, clock, toRemote, fromRemote, at);
          if verdict.Some? {
            return Transfer(toRemote.bytes, fromRemote.bytes), verdict.value, seen;
          }
      }
      seen := seen + 1;
    }
    assert script[..seen] == script;
    return Transfer(toRemote.bytes, fromRemote.bytes), last, seen;
  }
}
