/** Following a log by polling (internal/httpapi/providers.go): what reaches the client, whenever the polls happen. */
module LogFollow {
  import opened Sequences
  import opened LogRing

  /** The lines one pass over a snapshot prints, given the timestamp of the last line printed before. */
  function Emit(lines: seq<Line>, sent: Time): seq<Line> {
    if lines == [] then []
    else
      var before := Emit(lines[..|lines| - 1], sent);
      var ln := lines[|lines| - 1];
      if Skips(SentAfter(before, sent), ln) then before else before + [ln]
  }

  predicate Skips(sent: Time, ln: Line) {
    sent != 0 && ln.ts <= sent
  }

  function SentAfter(out: seq<Line>, sent: Time): Time {
    if out == [] then sent else out[|out| - 1].ts
  }

  /** One turn of the follow loop. */
  method Poll(b: Buffer, sent: Time, source: string, level: string) returns (out: seq<Line>, sent': Time)
    requires b.Valid()
    ensures out == Emit(Select(Last(b.log, b.max), Query(sent, source, level)), sent)
    ensures sent' == SentAfter(out, sent)
  {
    var lines := b.Snapshot(Query(sent, source, level), 0);
    out, sent' := [], sent;
    for i := 0 to |lines|
      invariant out == Emit(lines[..i], sent) && sent' == SentAfter(out, sent)
    {
      assert lines[..i + 1][..i] == lines[..i];
      if !(sent' != 0 && !(lines[i].ts > sent')) {
        out := out + [lines[i]];
        sent' := lines[i].ts;
      }
    }
    assert lines[..|lines|] == lines;
  }

  // --- Runs of a follower beside appends and removals ---

  /** Arrive is an append to the sandbox's buffer, Drop its removal, Turn a turn of the follow loop. */
  datatype Event = Arrive(lines: seq<Line>) | Drop | Turn

  /** `log` is what was appended to the present buffer, `out` what the client got. */
  datatype Follower = Follower(log: seq<Line>, sent: Time, out: seq<Line>)

  function Step(f: Follower, max: nat, source: string, level: string, ev: Event): Follower {
    match ev
    case Arrive(lines) => f.(log := f.log + lines)
    case Drop => f.(log := [])
    case Turn =>
      var out := Emit(Select(Last(f.log, max), Query(f.sent, source, level)), f.sent);
      f.(sent := SentAfter(out, f.sent), out := f.out + out)
  }

  function Run(events: seq<Event>, max: nat, source: string, level: string, start: Time): Follower {
    if events == [] then Follower([], start, [])
    else Step(Run(events[..|events| - 1], max, source, level, start), max, source, level, events[|events| - 1])
  }

  /** Stored lines carry a timestamp: Append stamps the others with the clock. */
  ghost predicate Dated(lines: seq<Line>) {
    forall i | 0 <= i < |lines| :: lines[i].ts != 0
  }

  ghost predicate EventsDated(events: seq<Event>) {
    forall i | 0 <= i < |events| && events[i].Arrive? :: Dated(events[i].lines)
  }

  ghost predicate Increasing(lines: seq<Line>) {
    forall i, j | 0 <= i < j < |lines| :: lines[i].ts < lines[j].ts
  }

  /** Newer than the start point, which filters nothing if it is the zero time. */
  ghost predicate Newer(lines: seq<Line>, sent: Time) {
    sent != 0 ==> forall i | 0 <= i < |lines| :: lines[i].ts > sent
  }

  lemma {:induction false} SelectDated(lines: seq<Line>, q: Query)
    requires Dated(lines)
    ensures Dated(Select(lines, q))
  {
    if lines != [] {
      SelectDated(lines[..|lines| - 1], q);
    }
  }

  lemma {:induction false} EmitIncreasing(lines: seq<Line>, sent: Time)
    requires Dated(lines)
    ensures Dated(Emit(lines, sent)) && Increasing(Emit(lines, sent)) && Newer(Emit(lines, sent), sent)
  {
    if lines != [] {
      EmitIncreasing(lines[..|lines| - 1], sent);
    }
  }

  /** The output is dated, strictly increasing and newer than the start, and `sent` is its last timestamp. */
  ghost predicate PrintedInOrder(f: Follower, start: Time) {
    Dated(f.log) && Dated(f.out) && Increasing(f.out) && Newer(f.out, start) && f.sent == SentAfter(f.out, start)
  }

  lemma TurnKeepsOrder(f: Follower, max: nat, source: string, level: string, start: Time)
    requires PrintedInOrder(f, start)
    ensures PrintedInOrder(Step(f, max, source, level, Turn), start)
  {
    var q := Query(f.sent, source, level);
    SelectDated(Last(f.log, max), q);
    EmitIncreasing(Select(Last(f.log, max), q), f.sent);
    assert f.out != [] ==> f.sent == f.out[|f.out| - 1].ts;
  }

  /** Across all appends, removals and turns the printed timestamps strictly increase, so no line is printed twice. */
  lemma {:induction false} FollowNeverRepeats(events: seq<Event>, max: nat, source: string, level: string, start: Time)
    requires EventsDated(events)
    ensures PrintedInOrder(Run(events, max, source, level, start), start)
  {
    if events != [] {
      FollowNeverRepeats(events[..|events| - 1], max, source, level, start);
      if events[|events| - 1].Turn? {
        TurnKeepsOrder(Run(events[..|events| - 1], max, source, level, start), max, source, level, start);
      }
    }
  }

  // --- Polling is invisible ---

  lemma {:induction false} EmitConcat(a: seq<Line>, b: seq<Line>, sent: Time)
    ensures Emit(a + b, sent) == Emit(a, sent) + Emit(b, SentAfter(Emit(a, sent), sent))
  {
    if b == [] {
      assert a + b == a;
    } else {
      assert (a + b)[..|a + b| - 1] == a + b[..|b| - 1];
      EmitConcat(a, b[..|b| - 1], sent);
    }
  }

  /** After a pass, everything it looked at is at or before the last timestamp printed. */
  lemma {:induction false} EmitCovers(lines: seq<Line>, sent: Time)
    requires Dated(lines)
    ensures lines != [] ==> SentAfter(Emit(lines, sent), sent) != 0
    ensures forall i | 0 <= i < |lines| :: lines[i].ts <= SentAfter(Emit(lines, sent), sent)
  {
    if lines != [] {
      EmitCovers(lines[..|lines| - 1], sent);
      EmitIncreasing(lines, sent);
    }
  }

  lemma EmitSnoc(lines: seq<Line>, ln: Line, sent: Time)
    ensures var before := Emit(lines, sent);
            Emit(lines + [ln], sent) == if Skips(SentAfter(before, sent), ln) then before else before + [ln]
  {
    assert (lines + [ln])[..|lines|] == lines;
  }

  /** Printing only moves forward: what the start point excludes stays excluded. */
  lemma StartStaysExcluded(lines: seq<Line>, ln: Line, sent: Time)
    requires Dated(lines) && Skips(sent, ln)
    ensures Skips(SentAfter(Emit(lines, sent), sent), ln)
  {
    EmitIncreasing(lines, sent);
  }

  /** Asking the buffer only for lines since `sent` prints the same as asking for all of them. */
  lemma {:induction false} SinceIsRedundant(lines: seq<Line>, sent: Time, source: string, level: string)
    requires Dated(lines)
    ensures Emit(Select(lines, Query(sent, source, level)), sent) == Emit(Select(lines, Query(0, source, level)), sent)
  {
    if lines != [] {
      var before, ln := lines[..|lines| - 1], lines[|lines| - 1];
      SinceIsRedundant(before, sent, source, level);
      var fewer, all := Select(before, Query(sent, source, level)), Select(before, Query(0, source, level));
      EmitSnoc(fewer, ln, sent);
      EmitSnoc(all, ln, sent);
      assert all + [] == all && fewer + [] == fewer;
      if Selects(Query(0, source, level), ln) && !Selects(Query(sent, source, level), ln) {
        SelectDated(before, Query(0, source, level));
        StartStaysExcluded(all, ln, sent);
      }
    }
  }

  lemma {:induction false} SelectKeeps(lines: seq<Line>, q: Query, ln: Line)
    requires ln in lines && Selects(q, ln)
    ensures ln in Select(lines, q)
  {
    if ln != lines[|lines| - 1] {
      SelectKeeps(lines[..|lines| - 1], q, ln);
    }
  }

  /** Every matching line is at or before the last timestamp printed, so printing it again is ruled out. */
  ghost predicate Covered(lines: seq<Line>, q: Query, sent: Time) {
    forall i | 0 <= i < |lines| && Selects(q, lines[i]) :: Skips(sent, lines[i])
  }

  lemma {:induction false} CoveredIsSilent(lines: seq<Line>, q: Query, sent: Time)
    requires Covered(lines, q, sent)
    ensures Emit(Select(lines, q), sent) == []
  {
    if lines != [] {
      var before, ln := lines[..|lines| - 1], lines[|lines| - 1];
      CoveredIsSilent(before, q, sent);
      EmitSnoc(Select(before, q), ln, sent);
      assert Select(before, q) + [] == Select(before, q);
    }
  }

  lemma PassCovers(lines: seq<Line>, q: Query, sent: Time)
    requires Dated(lines)
    ensures Covered(lines, q, SentAfter(Emit(Select(lines, q), sent), sent))
  {
    SelectDated(lines, q);
    EmitCovers(Select(lines, q), sent);
    forall i | 0 <= i < |lines| && Selects(q, lines[i])
      ensures Skips(SentAfter(Emit(Select(lines, q), sent), sent), lines[i])
    {
      SelectKeeps(lines, q, lines[i]);
    }
  }

  /** A turn over a buffer that begins with covered lines prints what the rest alone would. */
  lemma TurnPrintsTheRest(known: seq<Line>, rest: seq<Line>, sent: Time, source: string, level: string)
    requires Dated(known + rest) && Covered(known, Query(0, source, level), sent)
    ensures Emit(Select(known + rest, Query(sent, source, level)), sent) ==
              Emit(Select(rest, Query(0, source, level)), sent)
  {
    var q := Query(0, source, level);
    SinceIsRedundant(known + rest, sent, source, level);
    SelectConcat(known, rest, q);
    CoveredIsSilent(known, q, sent);
    EmitConcat(Select(known, q), Select(rest, q), sent);
  }

  // --- What passes through the buffer unseen ---

  /**
   The arrivals of a run, in one list `all` that removals do not shorten: the first `removed` of them went with a
   removed buffer, the first `seen` had arrived by the last turn. Of these, `shown` were in the buffer at some turn and
   `lost` at none. Nothing here depends on timestamps or on what was printed.
   */
  datatype Arrivals = Arrivals(all: seq<Line>, removed: nat, seen: nat, shown: seq<Line>, lost: seq<Line>)

  /** How many of the arrivals the buffer no longer holds. */
  function Gone(r: Arrivals, max: nat): (n: nat)
    requires r.removed <= |r.all|
    ensures r.removed <= n <= |r.all| && r.all[n..] == Last(r.all[r.removed..], max)
  {
    |r.all| - |Last(r.all[r.removed..], max)|
  }

  /** The first arrival a turn finds in the buffer that no earlier turn did. */
  function FirstNew(r: Arrivals, max: nat): nat
    requires r.removed <= |r.all|
  {
    if Gone(r, max) <= r.seen then r.seen else Gone(r, max)
  }

  function Record(r: Arrivals, max: nat, ev: Event): (r': Arrivals)
    requires r.removed <= |r.all| && r.seen <= |r.all|
    ensures r'.removed <= |r'.all| && r'.seen <= |r'.all|
  {
    match ev
    case Arrive(lines) => r.(all := r.all + lines)
    case Drop => r.(removed := |r.all|)
    case Turn =>
      var from := FirstNew(r, max);
      r.(seen := |r.all|, shown := r.shown + r.all[from..], lost := r.lost + r.all[r.seen..from])
  }

  function Recorded(events: seq<Event>, max: nat): (r: Arrivals)
    ensures r.removed <= |r.all| && r.seen <= |r.all|
  {
    if events == [] then Arrivals([], 0, 0, [], [])
    else Record(Recorded(events[..|events| - 1], max), max, events[|events| - 1])
  }

  // --- The record of a run against its events ---

  /** Everything that arrived in a run. */
  function Arrived(events: seq<Event>): seq<Line> {
    if events == [] then []
    else Arrived(events[..|events| - 1]) + match events[|events| - 1] case Arrive(lines) => lines case _ => []
  }

  /** At event i, the p-th arrival is in the buffer: it came after the last removal and is one of the last max lines. */
  ghost predicate InBuffer(events: seq<Event>, i: nat, p: nat, max: nat)
    requires i <= |events|
  {
    && |Arrived(events[..i])| - max <= p < |Arrived(events[..i])|
    && forall d | 0 <= d < i && events[d].Drop? :: |Arrived(events[..d])| <= p
  }

  lemma ArrivedStep(events: seq<Event>, i: nat)
    requires i < |events|
    ensures Arrived(events[..i]) <= Arrived(events[..i + 1])
    ensures events[i].Arrive? ==> Arrived(events[..i + 1]) == Arrived(events[..i]) + events[i].lines
    ensures !events[i].Arrive? ==> Arrived(events[..i + 1]) == Arrived(events[..i])
  {
    assert events[..i + 1][..i] == events[..i];
  }

  /** How many lines had arrived at the last removal, if any. */
  function RemovedBy(events: seq<Event>): nat {
    if events == [] then 0
    else if events[|events| - 1].Drop? then |Arrived(events[..|events| - 1])|
    else RemovedBy(events[..|events| - 1])
  }

  lemma {:induction false} RecordedAll(events: seq<Event>, max: nat)
    ensures Recorded(events, max).all == Arrived(events) && Recorded(events, max).removed == RemovedBy(events)
  {
    if events != [] {
      RecordedAll(events[..|events| - 1], max);
    }
  }

  lemma {:induction false} RemovedByLastDrop(events: seq<Event>, i: nat, p: nat)
    requires i <= |events|
    ensures RemovedBy(events[..i]) <= |Arrived(events[..i])|
    ensures RemovedBy(events[..i]) <= p <==> forall d | 0 <= d < i && events[d].Drop? :: |Arrived(events[..d])| <= p
  {
    if i > 0 {
      assert events[..i][..i - 1] == events[..i - 1];
      RemovedByLastDrop(events, i - 1, p);
      ArrivedStep(events, i - 1);
    }
  }

  /** The arrivals from `Gone` on are those in the buffer. */
  lemma GoneMeans(events: seq<Event>, i: nat, p: nat, max: nat)
    requires i <= |events|
    ensures InBuffer(events, i, p, max) <==> Gone(Recorded(events[..i], max), max) <= p < |Arrived(events[..i])|
  {
    RecordedAll(events[..i], max);
    RemovedByLastDrop(events, i, p);
  }

  /** The p-th arrival was in the buffer at one of the turns before event i. */
  ghost predicate Met(events: seq<Event>, i: nat, p: nat, max: nat)
    requires i <= |events|
  {
    exists t | 0 <= t < i && events[t].Turn? :: InBuffer(events, t, p, max)
  }

  /** `seen` is what had arrived by the last turn; the arrivals at `at` are the lost ones, out of the buffer by now. */
  ghost predicate LostAt(events: seq<Event>, i: nat, max: nat, at: seq<nat>)
    requires i <= |events|
  {
    var r := Recorded(events[..i], max);
    && PickedAt(r.lost, r.all, at)
    && (forall t | 0 <= t < i && events[t].Turn? :: |Arrived(events[..t])| <= r.seen)
    && (forall p: nat | p in at :: p < r.seen && p < Gone(r, max))
    && (forall p: nat | p < r.seen :: p in at <==> !Met(events, i, p, max))
  }

  lemma GoneGrows(r: Arrivals, max: nat, ev: Event)
    requires r.removed <= |r.all| && r.seen <= |r.all|
    ensures Gone(r, max) <= Gone(Record(r, max, ev), max)
  {
  }

  lemma QuietKeepsLost(events: seq<Event>, i: nat, max: nat, at: seq<nat>)
    requires i < |events| && !events[i].Turn? && LostAt(events, i, max, at)
    ensures LostAt(events, i + 1, max, at)
  {
    assert events[..i + 1][..i] == events[..i];
    GoneGrows(Recorded(events[..i], max), max, events[i]);
    assert forall p: nat :: Met(events, i + 1, p, max) <==> Met(events, i, p, max);
  }

  function Range(a: nat, b: nat): (r: seq<nat>)
    requires a <= b
    ensures |r| == b - a && forall i | 0 <= i < |r| :: r[i] == a + i
  {
    seq(b - a, i requires 0 <= i < b - a => a + i)
  }

  lemma PickRange(s: seq<Line>, t: seq<Line>, at: seq<nat>, a: nat, b: nat)
    requires PickedAt(s, t, at) && a <= b <= |t| && forall p | p in at :: p < a
    ensures PickedAt(s + t[a..b], t, at + Range(a, b))
    ensures forall p: nat :: p in at + Range(a, b) <==> p in at || a <= p < b
  {
    forall p: nat | a <= p < b ensures p in Range(a, b) {
      assert Range(a, b)[p - a] == p;
    }
    assert forall i | 0 <= i < |at| :: at[i] in at;
  }

  /** Which arrivals a turn adds to the lost ones. */
  lemma TurnMeets(events: seq<Event>, i: nat, max: nat, at: seq<nat>, p: nat)
    requires i < |events| && events[i].Turn? && LostAt(events, i, max, at) && p < |Arrived(events[..i])|
    ensures var r := Recorded(events[..i], max);
            !Met(events, i + 1, p, max) <==> p in at || r.seen <= p < FirstNew(r, max)
  {
    GoneMeans(events, i, p, max);
    RecordedAll(events[..i], max);
    assert Met(events, i + 1, p, max) <==> Met(events, i, p, max) || InBuffer(events, i, p, max);
  }

  lemma TurnKeepsLost(events: seq<Event>, i: nat, max: nat, at: seq<nat>) returns (at': seq<nat>)
    requires i < |events| && events[i].Turn? && LostAt(events, i, max, at)
    ensures LostAt(events, i + 1, max, at')
  {
    assert events[..i + 1][..i] == events[..i];
    RecordedAll(events[..i], max);
    var r := Recorded(events[..i], max);
    var from := FirstNew(r, max);
    at' := at + Range(r.seen, from);
    PickRange(r.lost, r.all, at, r.seen, from);
    forall p: nat | p < |r.all| ensures p in at' <==> !Met(events, i + 1, p, max) {
      TurnMeets(events, i, max, at, p);
    }
  }

  /** `lost` is exactly the arrivals that had come by the last turn and were in the buffer at no turn, in order. */
  lemma {:induction false} LostIsNeverMet(events: seq<Event>, i: nat, max: nat) returns (at: seq<nat>)
    requires i <= |events|
    ensures LostAt(events, i, max, at)
  {
    if i == 0 {
      at := [];
    } else {
      at := LostIsNeverMet(events, i - 1, max);
      if events[i - 1].Turn? {
        at := TurnKeepsLost(events, i - 1, max, at);
      } else {
        QuietKeepsLost(events, i - 1, max, at);
      }
    }
  }

  /** A client that has just been served has seen everything that arrived. */
  lemma TurnSeesAll(events: seq<Event>, max: nat)
    requires events != [] && events[|events| - 1].Turn?
    ensures Recorded(events, max).all == Arrived(events) && Recorded(events, max).seen == |Arrived(events)|
  {
    RecordedAll(events, max);
  }

  /** The buffer holds the arrivals since its creation, its seen part is covered, and the output is one pass over
      `shown`. */
  ghost predicate OnePass(f: Follower, r: Arrivals, max: nat, q: Query, start: Time) {
    && r.removed <= |r.all| && r.seen <= |r.all|
    && Dated(r.all) && f.log == r.all[r.removed..]
    && (Gone(r, max) <= r.seen ==> Covered(r.all[Gone(r, max)..r.seen], q, f.sent))
    && f.out == Emit(Select(r.shown, q), start) && f.sent == SentAfter(f.out, start)
  }

  lemma ArriveKeepsOnePass(f: Follower, r: Arrivals, max: nat, q: Query, start: Time, lines: seq<Line>)
    requires Dated(lines) && OnePass(f, r, max, q, start)
    ensures OnePass(f.(log := f.log + lines), r.(all := r.all + lines), max, q, start)
  {
    var r' := r.(all := r.all + lines);
    assert r'.all[r.removed..] == r.all[r.removed..] + lines;
    if Gone(r', max) <= r.seen {
      var old', new' := r.all[Gone(r, max)..r.seen], r'.all[Gone(r', max)..r.seen];
      assert forall i | 0 <= i < |new'| :: new'[i] == old'[i + Gone(r', max) - Gone(r, max)];
    }
  }

  /** The output of a turn continues the pass over `shown` with the lines this turn is the first to find. */
  lemma TurnContinuesPass(f: Follower, r: Arrivals, max: nat, source: string, level: string, start: Time)
    requires OnePass(f, r, max, Query(0, source, level), start)
    ensures var rest := r.all[FirstNew(r, max)..];
            Emit(Select(r.shown + rest, Query(0, source, level)), start) ==
              f.out + Emit(Select(Last(f.log, max), Query(f.sent, source, level)), f.sent)
  {
    var q := Query(0, source, level);
    var gone, from := Gone(r, max), FirstNew(r, max);
    var known, rest := r.all[gone..from], r.all[from..];
    assert known + rest == r.all[gone..] == Last(f.log, max);
    TurnPrintsTheRest(known, rest, f.sent, source, level);
    SelectConcat(r.shown, rest, q);
    EmitConcat(Select(r.shown, q), Select(rest, q), start);
  }

  lemma TurnKeepsOnePass(f: Follower, r: Arrivals, max: nat, source: string, level: string, start: Time)
    requires OnePass(f, r, max, Query(0, source, level), start)
    ensures OnePass(Step(f, max, source, level, Turn), Record(r, max, Turn), max, Query(0, source, level), start)
  {
    TurnContinuesPass(f, r, max, source, level, start);
    TurnCovers(Last(f.log, max), f.sent, source, level);
    var out := Emit(Select(Last(f.log, max), Query(f.sent, source, level)), f.sent);
    PrintKeepsOnePass(f, r, max, Query(0, source, level), start, out);
  }

  lemma PrintKeepsOnePass(f: Follower, r: Arrivals, max: nat, q: Query, start: Time, out: seq<Line>)
    requires OnePass(f, r, max, q, start)
    requires Emit(Select(r.shown + r.all[FirstNew(r, max)..], q), start) == f.out + out
    requires Covered(Last(f.log, max), q, SentAfter(out, f.sent))
    ensures OnePass(f.(sent := SentAfter(out, f.sent), out := f.out + out), Record(r, max, Turn), max, q, start)
  {
    assert Gone(Record(r, max, Turn), max) == Gone(r, max);
    assert r.all[Gone(r, max)..|r.all|] == Last(f.log, max);
  }

  lemma TurnCovers(window: seq<Line>, sent: Time, source: string, level: string)
    requires Dated(window)
    ensures var out := Emit(Select(window, Query(sent, source, level)), sent);
            Covered(window, Query(0, source, level), SentAfter(out, sent))
  {
    SinceIsRedundant(window, sent, source, level);
    PassCovers(window, Query(0, source, level), sent);
  }

  /**
   Whatever is appended, evicted and removed, and whenever the turns happen: the output is one pass over the lines that
   were in the buffer at some turn.
   */
  lemma {:induction false} FollowIsOnePass(events: seq<Event>, max: nat, source: string, level: string, start: Time)
    requires EventsDated(events)
    ensures OnePass(Run(events, max, source, level, start), Recorded(events, max), max, Query(0, source, level), start)
  {
    if events != [] {
      var before := events[..|events| - 1];
      FollowIsOnePass(before, max, source, level, start);
      var f, r := Run(before, max, source, level, start), Recorded(before, max);
      match events[|events| - 1]
      case Arrive(lines) => ArriveKeepsOnePass(f, r, max, Query(0, source, level), start, lines);
      case Drop =>
      case Turn => TurnKeepsOnePass(f, r, max, source, level, start);
    }
  }

  // --- When the client gets everything ---

  /** The lines newer than the start point, in order. */
  function After(lines: seq<Line>, start: Time): seq<Line> {
    if lines == [] then []
    else After(lines[..|lines| - 1], start) + if Skips(start, lines[|lines| - 1]) then [] else [lines[|lines| - 1]]
  }

  /** What the client asked for: the matching lines newer than its start point. */
  function Wanted(lines: seq<Line>, source: string, level: string, start: Time): seq<Line> {
    After(Select(lines, Query(0, source, level)), start)
  }

  /** Wanted are exactly the lines asked for that are newer than the start point, in order and multiplicity. */
  lemma {:induction false} WantedIsFilter(lines: seq<Line>, source: string, level: string, start: Time)
      returns (at: seq<nat>)
    ensures PickedAt(Wanted(lines, source, level, start), lines, at)
    ensures forall p: nat | p < |lines| ::
              p in at <==> Asked(Query(0, source, level), lines[p]) && (start == 0 || lines[p].ts > start)
  {
    if lines == [] {
      at := [];
    } else {
      var n := |lines| - 1;
      var before := WantedIsFilter(lines[..n], source, level, start);
      SelectsWhatIsAsked(Query(0, source, level), lines[n]);
      LastIsWanted(lines, source, level, start);
      PickOneMore(Wanted(lines[..n], source, level, start), lines[..n], before, lines[n]);
      assert lines == lines[..n] + [lines[n]];
      at := if Selects(Query(0, source, level), lines[n]) && !Skips(start, lines[n]) then before + [n] else before;
      forall p: nat | p < |lines|
        ensures p in at <==> Asked(Query(0, source, level), lines[p]) && (start == 0 || lines[p].ts > start)
      {
        assert p < n ==> (p in before <==>
          Asked(Query(0, source, level), lines[..n][p]) && (start == 0 || lines[..n][p].ts > start));
      }
    }
  }

  lemma LastIsWanted(lines: seq<Line>, source: string, level: string, start: Time)
    requires lines != []
    ensures var before, ln := lines[..|lines| - 1], lines[|lines| - 1];
            Wanted(lines, source, level, start) == Wanted(before, source, level, start) +
              if Selects(Query(0, source, level), ln) && !Skips(start, ln) then [ln] else []
  {
    var q, before, ln := Query(0, source, level), lines[..|lines| - 1], lines[|lines| - 1];
    AfterConcat(Select(before, q), if Selects(q, ln) then [ln] else [], start);
    assert After([ln], start) == if Skips(start, ln) then [] else [ln];
  }

  lemma {:induction false} AfterConcat(a: seq<Line>, b: seq<Line>, start: Time)
    ensures After(a + b, start) == After(a, start) + After(b, start)
  {
    if b == [] {
      assert a + b == a;
    } else {
      assert (a + b)[..|a + b| - 1] == a + b[..|b| - 1];
      AfterConcat(a, b[..|b| - 1], start);
    }
  }

  lemma WantedConcat(a: seq<Line>, b: seq<Line>, source: string, level: string, start: Time)
    ensures Wanted(a + b, source, level, start) == Wanted(a, source, level, start) + Wanted(b, source, level, start)
  {
    var q := Query(0, source, level);
    SelectConcat(a, b, q);
    AfterConcat(Select(a, q), Select(b, q), start);
  }

  /** Every wanted line that had arrived by the last turn was either shown or lost. */
  ghost predicate Split(r: Arrivals, source: string, level: string, start: Time)
    requires r.seen <= |r.all|
  {
    var wanted, shown, lost := Wanted(r.all[..r.seen], source, level, start), Wanted(r.shown, source, level, start),
                               Wanted(r.lost, source, level, start);
    |wanted| == |shown| + |lost| && (lost == [] ==> wanted == shown)
  }

  lemma TurnKeepsSplit(r: Arrivals, from: nat, source: string, level: string, start: Time)
    requires r.seen <= from <= |r.all| && Split(r, source, level, start)
    ensures Split(r.(seen := |r.all|, shown := r.shown + r.all[from..], lost := r.lost + r.all[r.seen..from]),
                  source, level, start)
  {
    assert r.all[..|r.all|] == (r.all[..r.seen] + r.all[r.seen..from]) + r.all[from..];
    WantedConcat(r.all[..r.seen] + r.all[r.seen..from], r.all[from..], source, level, start);
    WantedConcat(r.all[..r.seen], r.all[r.seen..from], source, level, start);
    WantedConcat(r.shown, r.all[from..], source, level, start);
    WantedConcat(r.lost, r.all[r.seen..from], source, level, start);
  }

  lemma {:induction false} ShownOrLost(events: seq<Event>, max: nat, source: string, level: string, start: Time)
    ensures Split(Recorded(events, max), source, level, start)
  {
    if events != [] {
      var r := Recorded(events[..|events| - 1], max);
      ShownOrLost(events[..|events| - 1], max, source, level, start);
      match events[|events| - 1]
      case Arrive(lines) => assert (r.all + lines)[..r.seen] == r.all[..r.seen];
      case Drop =>
      case Turn => TurnKeepsSplit(r, FirstNew(r, max), source, level, start);
    }
  }

  /** A pass prints no more than what is newer than the start point, and all of that if the timestamps strictly
      increase. */
  lemma {:induction false} PassPrintsAtMost(lines: seq<Line>, start: Time)
    requires Dated(lines)
    ensures |Emit(lines, start)| <= |After(lines, start)|
  {
    if lines != [] {
      var before, ln := lines[..|lines| - 1], lines[|lines| - 1];
      PassPrintsAtMost(before, start);
      if Skips(start, ln) {
        StartStaysExcluded(before, ln, start);
      }
    }
  }

  lemma {:induction false} IncreasingIsPrinted(lines: seq<Line>, start: Time)
    requires Dated(lines) && Increasing(After(lines, start))
    ensures Emit(lines, start) == After(lines, start)
  {
    if lines != [] {
      var before, ln := lines[..|lines| - 1], lines[|lines| - 1];
      var kept := After(before, start);
      if Skips(start, ln) {
        assert After(lines, start) == kept;
        StartStaysExcluded(before, ln, start);
      } else {
        var all := After(lines, start);
        assert all == kept + [ln] && forall i | 0 <= i < |kept| :: all[i] == kept[i];
        assert kept != [] ==> all[|kept| - 1].ts < all[|kept|].ts;
      }
      IncreasingIsPrinted(before, start);
    }
  }

  /**
   The client has every matching line newer than its start point, once and in order, exactly when their timestamps
   strictly increase and none of them left the buffer between two turns.
   */
  lemma FollowIsComplete(events: seq<Event>, max: nat, source: string, level: string, start: Time)
    requires EventsDated(events)
    ensures var r := Recorded(events, max);
            var wanted := Wanted(r.all[..r.seen], source, level, start);
            Run(events, max, source, level, start).out == wanted <==>
              Increasing(wanted) && Wanted(r.lost, source, level, start) == []
  {
    var f, r, q := Run(events, max, source, level, start), Recorded(events, max), Query(0, source, level);
    FollowIsOnePass(events, max, source, level, start);
    FollowNeverRepeats(events, max, source, level, start);
    ShownOrLost(events, max, source, level, start);
    ShownDated(events, max);
    SelectDated(r.shown, q);
    PassPrintsAtMost(Select(r.shown, q), start);
    if Increasing(Wanted(r.shown, source, level, start)) {
      IncreasingIsPrinted(Select(r.shown, q), start);
    }
  }

  lemma {:induction false} ShownDated(events: seq<Event>, max: nat)
    requires EventsDated(events)
    ensures Dated(Recorded(events, max).all) && Dated(Recorded(events, max).shown)
  {
    if events != [] {
      ShownDated(events[..|events| - 1], max);
    }
  }

  // --- Both ways of missing a line ---

  function AppendThenTurn(lines: seq<Line>): seq<Event> { [Arrive(lines), Turn] }

  /** Two lines of one instant appended before a turn: the client never gets the second, though the buffer has it. */
  lemma EqualTimestampsLoseALine(lines: seq<Line>, max: nat)
    requires |lines| == 2 && 0 < lines[0].ts == lines[1].ts && max >= 2
    ensures var events := AppendThenTurn(lines);
            && Wanted(Recorded(events, max).all, "", "", 0) == lines && Recorded(events, max).lost == []
            && Run(events, max, "", "", 0).out == lines[..1]
  {
    ServedOnce(lines, max);
    TwoLines(lines);
    OneLine(lines[1..], lines[0].ts);
  }

  /** Increasing timestamps but a buffer of one line: the first is evicted before the turn. */
  lemma EvictionLosesALine(lines: seq<Line>)
    requires |lines| == 2 && 0 < lines[0].ts < lines[1].ts
    ensures var events := AppendThenTurn(lines);
            && Wanted(Recorded(events, 1).all, "", "", 0) == lines && Recorded(events, 1).lost == lines[..1]
            && Run(events, 1, "", "", 0).out == lines[1..]
  {
    ServedOnce(lines, 1);
    TwoLines(lines);
    OneLine(lines[1..], 0);
  }

  lemma ServedOnce(lines: seq<Line>, max: nat)
    ensures var events := AppendThenTurn(lines);
            && Recorded(events, max).all == lines
            && Recorded(events, max).lost == lines[..|lines| - |Last(lines, max)|]
            && Run(events, max, "", "", 0).out == Emit(Select(Last(lines, max), Query(0, "", "")), 0)
  {
    assert [Arrive(lines), Turn][..1] == [Arrive(lines)] && [Arrive(lines)][..0] == [];
    assert [] + lines == lines == lines[0..];
    assert Run([Arrive(lines)], max, "", "", 0) == Follower(lines, 0, []);
    assert Recorded([Arrive(lines)], max) == Arrivals(lines, 0, 0, [], []);
  }

  lemma OneLine(one: seq<Line>, sent: Time)
    requires |one| == 1
    ensures Select(one, Query(0, "", "")) == one && After(one, 0) == one
    ensures Emit(one, sent) == if Skips(sent, one[0]) then [] else one
  {
    assert one[..0] == [];
  }

  lemma TwoLines(lines: seq<Line>)
    requires |lines| == 2
    ensures Select(lines, Query(0, "", "")) == lines && Wanted(lines, "", "", 0) == lines
    ensures Emit(lines, 0) == lines[..1] + Emit(lines[1..], lines[0].ts)
  {
    assert lines == lines[..1] + lines[1..];
    OneLine(lines[..1], 0);
    OneLine(lines[1..], 0);
    SelectConcat(lines[..1], lines[1..], Query(0, "", ""));
    EmitConcat(lines[..1], lines[1..], 0);
    AfterConcat(lines[..1], lines[1..], 0);
  }
}
