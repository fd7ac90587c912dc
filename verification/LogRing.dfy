/** The per-sandbox log buffer (internal/logbuf/logbuf.go) against the unbounded log it stands for. */
module LogRing {
  import opened Sequences

  /** Instants in nanoseconds; 0 is Go's zero time. */
  type Time = int

  datatype Line = Line(ts: Time, source: string, level: string, text: string)

  /** Lines that arrive without a timestamp get the clock reading of their turn. */
  function Stamped(lines: seq<Line>, now: seq<Time>): (r: seq<Line>)
    requires |now| == |lines|
    ensures |r| == |lines|
    ensures forall i | 0 <= i < |r| :: r[i] == if lines[i].ts == 0 then lines[i].(ts := now[i]) else lines[i]
  {
    seq(|lines|, i requires 0 <= i < |lines| => if lines[i].ts == 0 then lines[i].(ts := now[i]) else lines[i])
  }

  predicate LevelMatch(got: string, want: string) {
    || got == want
    || ((want == "warn" || want == "warning") && (got == "MED" || got == "WARN" || got == "HIGH"))
    || (want == "error" && (got == "HIGH" || got == "CRIT" || got == "FATAL" || got == "ERROR"))
    || ((want == "debug" || want == "info") && (got == "INFO" || got == "LOW" || got == "OCSF" || got == ""))
  }

  /** The filters of a snapshot; zero time and empty strings filter nothing. */
  datatype Query = Query(since: Time, source: string, level: string)

  predicate Selects(q: Query, ln: Line) {
    && !(q.since != 0 && ln.ts < q.since)
    && (q.source == "" || ln.source == q.source)
    && (q.level == "" || LevelMatch(ln.level, q.level))
  }

  function Select(lines: seq<Line>, q: Query): seq<Line> {
    if lines == [] then []
    else Select(lines[..|lines| - 1], q) + if Selects(q, lines[|lines| - 1]) then [lines[|lines| - 1]] else []
  }

  function Snap(lines: seq<Line>, q: Query, limit: int): seq<Line> {
    if limit > 0 then Last(Select(lines, q), limit) else Select(lines, q)
  }

  /** A capacity-1 wake-up channel; `tokens` is how many wake-ups are buffered in it. */
  class Waiter {
    var tokens: nat

    constructor ()
      ensures tokens == 0
    {
      tokens := 0;
    }
  }

  class Buffer {
    const max: nat
    var lines: seq<Line>
    var waiters: seq<Waiter>
    /** Every line ever appended. */
    ghost var log: seq<Line>

    /** The buffer is exactly the last max lines ever appended, and no registered waiter has been woken. */
    ghost predicate Valid()
      reads this, waiters
    {
      && max > 0
      && lines == Last(log, max)
      && (forall i, j | 0 <= i < j < |waiters| :: waiters[i] != waiters[j])
      && (forall i | 0 <= i < |waiters| :: waiters[i].tokens == 0)
    }

    constructor (max: nat)
      requires max > 0
      ensures Valid() && log == [] && waiters == [] && this.max == max
    {
      this.max, lines, waiters, log := max, [], [], [];
    }

    /** Appends a batch, trims to max, wakes every waiter once and forgets them. */
    method Append(batch: seq<Line>, now: seq<Time>)
      requires Valid() && |now| == |batch|
      modifies this, waiters
      ensures Valid() && log == old(log) + Stamped(batch, now)
      ensures waiters == [] && forall i | 0 <= i < |old(waiters)| :: old(waiters)[i].tokens == 1
    {
      AppendLines(batch, now);
      LastOfConcat(log, Stamped(batch, now), max);
      log := log + Stamped(batch, now);
      WakeAll();
    }

    method AppendLines(batch: seq<Line>, now: seq<Time>)
      requires |now| == |batch|
      modifies this`lines
      ensures lines == Last(old(lines) + Stamped(batch, now), max)
    {
      ghost var stamped: seq<Line> := [];
      for i := 0 to |batch|
        invariant |stamped| == i && lines == old(lines) + stamped
        invariant forall j | 0 <= j < i :: stamped[j] == Stamped(batch, now)[j]
      {
        var ln := batch[i];
        if ln.ts == 0 {
          ln := ln.(ts := now[i]);
        }
        lines := lines + [ln];
        stamped := stamped + [ln];
      }
      assert stamped == Stamped(batch, now);
      if |lines| > max {
        lines := lines[|lines| - max..];
      }
    }

    method WakeAll()
      requires forall i, j | 0 <= i < j < |waiters| :: waiters[i] != waiters[j]
      requires forall i | 0 <= i < |waiters| :: waiters[i].tokens == 0
      modifies this`waiters, waiters
      ensures waiters == [] && forall i | 0 <= i < |old(waiters)| :: old(waiters)[i].tokens == 1
    {
      for i := 0 to |waiters|
        invariant waiters == old(waiters)
        invariant forall j | 0 <= j < |waiters| :: waiters[j].tokens == if j < i then 1 else 0
      {
        if waiters[i].tokens == 0 {
          waiters[i].tokens := 1;
        }
      }
      waiters := [];
    }

    method Subscribe() returns (w: Waiter)
      requires Valid()
      modifies this`waiters
      ensures Valid() && fresh(w) && waiters == old(waiters) + [w]
    {
      w := new Waiter();
      waiters := waiters + [w];
    }

    method Snapshot(q: Query, limit: int) returns (out: seq<Line>)
      requires Valid()
      ensures out == Snap(Last(log, max), q, limit)
    {
      out := [];
      for i := 0 to |lines|
        invariant out == Select(lines[..i], q)
      {
        assert lines[..i + 1][..i] == lines[..i];
        if !(q.since != 0 && lines[i].ts < q.since) {
          if q.source == "" || lines[i].source == q.source {
            if q.level == "" || LevelMatch(lines[i].level, q.level) {
              out := out + [lines[i]];
            }
          }
        }
      }
      assert lines[..|lines|] == lines;
      if limit > 0 && |out| > limit {
        out := out[|out| - limit..];
      }
    }
  }

  /** Appending batch after batch through a bounded buffer keeps the last max lines of the concatenation. */
  lemma {:induction false} RingRefinesLog(batches: seq<seq<Line>>, max: nat)
    ensures Retained(batches, max) == Last(Concat(batches), max)
  {
    if batches != [] {
      var before := batches[..|batches| - 1];
      RingRefinesLog(before, max);
      LastOfConcat(Concat(before), batches[|batches| - 1], max);
    }
  }

  /** What the buffer keeps: append a batch, then drop all but the last max lines. */
  function Retained(batches: seq<seq<Line>>, max: nat): seq<Line> {
    if batches == [] then [] else Last(Retained(batches[..|batches| - 1], max) + batches[|batches| - 1], max)
  }

  function Concat(batches: seq<seq<Line>>): seq<Line> {
    if batches == [] then [] else Concat(batches[..|batches| - 1]) + batches[|batches| - 1]
  }

  lemma {:induction false} SelectConcat(a: seq<Line>, b: seq<Line>, q: Query)
    ensures Select(a + b, q) == Select(a, q) + Select(b, q)
  {
    if b == [] {
      assert a + b == a;
    } else {
      assert (a + b)[..|a + b| - 1] == a + b[..|b| - 1];
      SelectConcat(a, b[..|b| - 1], q);
    }
  }

  // --- What a query asks for ---

  /** The levels that pass a filter: the wanted word itself, and the shorthands it stands for. */
  function LevelsFor(want: string): set<string> {
    {want} +
    if want == "warn" || want == "warning" then {"MED", "WARN", "HIGH"}
    else if want == "error" then {"HIGH", "CRIT", "FATAL", "ERROR"}
    else if want == "debug" || want == "info" then {"INFO", "LOW", "OCSF", ""}
    else {}
  }

  predicate Asked(q: Query, ln: Line) {
    (q.since == 0 || ln.ts >= q.since) && (q.source == "" || ln.source == q.source)
    && (q.level == "" || ln.level in LevelsFor(q.level))
  }

  lemma SelectsWhatIsAsked(q: Query, ln: Line)
    ensures Selects(q, ln) <==> Asked(q, ln)
  {
  }

  /** The positions of s's elements in t, in order: s is t with some elements left out. */
  ghost predicate PickedAt(s: seq<Line>, t: seq<Line>, at: seq<nat>) {
    && |at| == |s|
    && (forall i | 0 <= i < |at| :: at[i] < |t| && s[i] == t[at[i]])
    && (forall i, j | 0 <= i < j < |at| :: at[i] < at[j])
  }

  lemma PickOneMore(s: seq<Line>, t: seq<Line>, at: seq<nat>, ln: Line)
    requires PickedAt(s, t, at)
    ensures PickedAt(s, t + [ln], at) && |t| !in at
    ensures PickedAt(s + [ln], t + [ln], at + [|t|])
  {
  }

  /** The selection is exactly the lines asked for, each as often as it occurs and in the order of the log. */
  lemma {:induction false} SelectIsFilter(lines: seq<Line>, q: Query) returns (at: seq<nat>)
    ensures PickedAt(Select(lines, q), lines, at)
    ensures forall p: nat | p < |lines| :: p in at <==> Asked(q, lines[p])
  {
    if lines == [] {
      at := [];
    } else {
      var n := |lines| - 1;
      var before := SelectIsFilter(lines[..n], q);
      SelectsWhatIsAsked(q, lines[n]);
      PickOneMore(Select(lines[..n], q), lines[..n], before, lines[n]);
      assert lines == lines[..n] + [lines[n]];
      at := if Selects(q, lines[n]) then before + [n] else before;
      forall p: nat | p < |lines| ensures p in at <==> Asked(q, lines[p]) {
        assert p < n ==> (p in before <==> Asked(q, lines[..n][p]));
      }
    }
  }

  /** With a positive limit a snapshot keeps the newest of the selected lines. */
  lemma SnapIsNewest(lines: seq<Line>, q: Query, limit: int)
    ensures var all := Select(lines, q);
            var n := if 0 < limit < |all| then limit else |all|;
            Snap(lines, q, limit) == all[|all| - n..]
  {
  }

  /** A snapshot equals the answer of the unbounded log exactly when no evicted line matches, or the retained lines hold
      at least `limit` matches. */
  lemma SnapshotAgreesIff(log: seq<Line>, max: nat, q: Query, limit: int)
    ensures var evicted := log[..|log| - |Last(log, max)|];
            Snap(Last(log, max), q, limit) == Snap(log, q, limit) <==>
              Select(evicted, q) == [] || (limit > 0 && |Select(Last(log, max), q)| >= limit)
  {
    var window := Last(log, max);
    var evicted := log[..|log| - |window|];
    assert log == evicted + window;
    SelectConcat(evicted, window, q);
    var e, w := Select(evicted, q), Select(window, q);
    if limit > 0 && |w| >= limit {
      assert Last(e + w, limit) == Last(w, limit);
    } else if e == [] {
      assert e + w == w;
    } else {
      assert |Snap(log, q, limit)| > |w|;
    }
  }
}
