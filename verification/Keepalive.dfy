/** The keepalive loop of a supervisor's control stream (internal/sshrelay/hub.go), with ideal ticks handled at once. */
module Keepalive {
  import opened Options

  datatype Event = Seen(t: int) | Tick(t: int)

  /** When the loop gives up, given when the supervisor was last seen. */
  function Drop(events: seq<Event>, last: int, timeout: int): Option<int> {
    if events == [] then None
    else match events[0]
      case Seen(t) => Drop(events[1..], t, timeout)
      case Tick(t) => if t - last > timeout then Some(t) else Drop(events[1..], last, timeout)
  }

  method Watch(events: seq<Event>, start: int, timeout: int) returns (dropped: Option<int>)
    ensures dropped == Drop(events, start, timeout)
  {
    var last := start;
    for i := 0 to |events|
      invariant Drop(events, start, timeout) == Drop(events[i..], last, timeout)
    {
      assert events[i..][1..] == events[i + 1..];
      match events[i]
      case Seen(t) => last := t;
      case Tick(t) =>
        if t - last > timeout {
          return Some(t);
        }
    }
    return None;
  }

  ghost predicate Ordered(events: seq<Event>, start: int) {
    && (forall i | 0 <= i < |events| :: start <= events[i].t)
    && (forall i, j | 0 <= i < j < |events| :: events[i].t <= events[j].t)
  }

  /** The time the supervisor was last seen after these events. */
  function LastSeen(events: seq<Event>, start: int): int {
    if events == [] then start
    else LastSeen(events[1..], if events[0].Seen? then events[0].t else start)
  }

  /** A supervisor last seen at time t is never dropped at or before t + timeout. */
  lemma {:induction false} NeverEarly(events: seq<Event>, start: int, timeout: int) returns (i: nat)
    requires Ordered(events, start) && Drop(events, start, timeout).Some?
    ensures i < |events| && events[i] == Tick(Drop(events, start, timeout).value)
    ensures start + timeout < events[i].t
    ensures forall j | 0 <= j < i && events[j].Seen? :: events[j].t + timeout < events[i].t
  {
    var e := events[0];
    if e.Tick? && e.t - start > timeout {
      i := 0;
    } else {
      var last := if e.Seen? then e.t else start;
      var k := NeverEarly(events[1..], last, timeout);
      i := k + 1;
      assert forall j | 0 < j < i :: events[j] == events[1..][j - 1];
    }
  }

  lemma {:induction false} DropConcat(a: seq<Event>, b: seq<Event>, start: int, timeout: int)
    requires Drop(a, start, timeout).None?
    ensures Drop(a + b, start, timeout) == Drop(b, LastSeen(a, start), timeout)
  {
    if a == [] {
      assert a + b == b;
    } else {
      assert (a + b)[1..] == a[1..] + b;
      DropConcat(a[1..], b, if a[0].Seen? then a[0].t else start, timeout);
    }
  }

  lemma {:induction false} SilentIsDropped(events: seq<Event>, last: int, timeout: int, j: nat)
    requires Ordered(events, last) && j < |events| && events[j].Tick? && events[j].t - last > timeout
    requires forall i | 0 <= i < |events| :: events[i].Tick?
    ensures Drop(events, last, timeout).Some? && Drop(events, last, timeout).value <= events[j].t
  {
    if !(events[0].t - last > timeout) {
      SilentIsDropped(events[1..], last, timeout, j - 1);
    }
  }

  /** Ticks come at start + interval, start + 2 interval, ...; all of those up to the horizon are among the events. */
  ghost predicate TicksCover(events: seq<Event>, start: int, interval: int, horizon: int) {
    forall n | n >= 1 && TickTime(start, interval, n) <= horizon :: Tick(TickTime(start, interval, n)) in events
  }

  function TickTime(start: int, interval: int, n: int): int { start + n * interval }

  /** Some tick falls in every half-open interval of one tick length after the start. */
  lemma TickWithin(start: int, interval: int, t: int) returns (n: int)
    requires interval > 0 && start <= t
    ensures n >= 1 && t < TickTime(start, interval, n) <= t + interval
  {
    var k := (t - start) / interval;
    n := k + 1;
    assert k >= 0 && t - start == k * interval + (t - start) % interval;
    assert n * interval == k * interval + interval;
  }

  /** A tick later than everything heard is among the silent events. */
  lemma FindLateTick(heard: seq<Event>, silent: seq<Event>, t: int) returns (j: nat)
    requires Tick(t) in heard + silent && forall i | 0 <= i < |heard| :: heard[i].t < t
    ensures j < |silent| && silent[j] == Tick(t)
  {
    var i :| 0 <= i < |heard + silent| && (heard + silent)[i] == Tick(t);
    j := i - |heard|;
  }

  lemma SplitOrdered(heard: seq<Event>, silent: seq<Event>, start: int)
    requires Ordered(heard + silent, start) && (heard != [] ==> heard[|heard| - 1].Seen?)
    ensures Ordered(silent, LastSeen(heard, start)) && start <= LastSeen(heard, start)
    ensures forall i | 0 <= i < |heard| :: heard[i].t <= LastSeen(heard, start)
  {
    LastSeenIsLast(heard, start);
    var all := heard + silent;
    assert forall i | 0 <= i < |heard| :: heard[i] == all[i];
    assert forall i | 0 <= i < |silent| :: silent[i] == all[|heard| + i];
  }

  /** A supervisor that stays silent and connected after time s is dropped after s + timeout and no later than
      s + timeout + interval. */
  lemma SilentDropBound(heard: seq<Event>, silent: seq<Event>, start: int, timeout: int, interval: int)
    requires interval > 0 && timeout >= 0 && Ordered(heard + silent, start)
    requires forall i | 0 <= i < |silent| :: silent[i].Tick?
    requires heard != [] ==> heard[|heard| - 1].Seen?
    requires TicksCover(heard + silent, start, interval, LastSeen(heard, start) + timeout + interval)
    requires Drop(heard, start, timeout).None?
    ensures var s := LastSeen(heard, start);
            var d := Drop(heard + silent, start, timeout);
            d.Some? && s + timeout < d.value <= s + timeout + interval
  {
    var s := LastSeen(heard, start);
    SplitOrdered(heard, silent, start);
    var n := TickWithin(start, interval, s + timeout);
    var j := FindLateTick(heard, silent, TickTime(start, interval, n));
    SilentIsDropped(silent, s, timeout, j);
    var i := NeverEarly(silent, s, timeout);
    DropConcat(heard, silent, start, timeout);
  }

  lemma {:induction false} LastSeenIsLast(events: seq<Event>, start: int)
    requires events != [] ==> events[|events| - 1].Seen?
    ensures events != [] ==> LastSeen(events, start) == events[|events| - 1].t
    ensures Ordered(events, start) ==> LastSeen(events, start) >= start
  {
    if |events| > 1 {
      LastSeenIsLast(events[1..], if events[0].Seen? then events[0].t else start);
    }
  }
}
