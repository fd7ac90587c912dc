/** Following several sandboxes at once (internal/httpapi/gateway.go): one `last` timestamp per name. */
module LogFleet {
  import opened Sequences
  import opened LogRing
  import opened LogFollow

  /** The zero time for names not served yet, like a Go map. */
  function LastOf(last: map<string, Time>, n: string): Time { if n in last then last[n] else 0 }

  /** What was appended to the buffer of a name; a name without a buffer has nothing. */
  function LogOf(logs: map<string, seq<Line>>, n: string): seq<Line> { if n in logs then logs[n] else [] }

  /** What one turn prints for one sandbox on its own. */
  function OneTurn(window: seq<Line>, sent: Time): seq<Line> {
    Emit(Select(window, Query(sent, "", "")), sent)
  }

  function Tagged(n: string, lines: seq<Line>): seq<(string, Line)> {
    if lines == [] then [] else Tagged(n, lines[..|lines| - 1]) + [(n, lines[|lines| - 1])]
  }

  /** The `last` map after printing lines for n. */
  function Moved(last: map<string, Time>, n: string, lines: seq<Line>): map<string, Time> {
    if lines == [] then last else last[n := lines[|lines| - 1].ts]
  }

  /** The lines of one sandbox among the printed ones. */
  function Of(out: seq<(string, Line)>, n: string): seq<Line> {
    if out == [] then []
    else Of(out[..|out| - 1], n) + if out[|out| - 1].0 == n then [out[|out| - 1].1] else []
  }

  lemma {:induction false} OfTagged(out: seq<(string, Line)>, m: string, lines: seq<Line>, n: string)
    ensures Of(out + Tagged(m, lines), n) == Of(out, n) + if m == n then lines else []
  {
    if lines == [] {
      assert out + [] == out;
    } else {
      var before := lines[..|lines| - 1];
      OfTagged(out, m, before, n);
      assert (out + Tagged(m, lines))[..|out + Tagged(m, lines)| - 1] == out + Tagged(m, before);
    }
  }

  // --- Runs ---

  /** An append to the buffer of n, its removal, or the part of a turn that serves n. */
  datatype FleetEvent = On(n: string, ev: Event)

  datatype Fleet = Fleet(logs: map<string, seq<Line>>, last: map<string, Time>, out: seq<(string, Line)>)

  function FleetStep(f: Fleet, max: nat, e: FleetEvent): Fleet {
    match e.ev
    case Arrive(lines) => f.(logs := f.logs[e.n := LogOf(f.logs, e.n) + lines])
    case Drop => f.(logs := f.logs - {e.n})
    case Turn =>
      var lines := OneTurn(Last(LogOf(f.logs, e.n), max), LastOf(f.last, e.n));
      f.(last := Moved(f.last, e.n, lines), out := f.out + Tagged(e.n, lines))
  }

  function FleetRun(events: seq<FleetEvent>, max: nat): Fleet {
    if events == [] then Fleet(map[], map[], [])
    else FleetStep(FleetRun(events[..|events| - 1], max), max, events[|events| - 1])
  }

  /** The events of one sandbox. */
  function Own(events: seq<FleetEvent>, n: string): seq<Event> {
    if events == [] then []
    else Own(events[..|events| - 1], n) + if events[|events| - 1].n == n then [events[|events| - 1].ev] else []
  }

  /** The fleet as a follower of n alone would see it. */
  function Alone(f: Fleet, n: string): Follower {
    Follower(LogOf(f.logs, n), LastOf(f.last, n), Of(f.out, n))
  }

  lemma StepServesItsOwn(f: Fleet, max: nat, e: FleetEvent, n: string)
    ensures Alone(FleetStep(f, max, e), n) == if e.n == n then Step(Alone(f, n), max, "", "", e.ev) else Alone(f, n)
  {
    if e.ev.Turn? {
      OfTagged(f.out, e.n, OneTurn(Last(LogOf(f.logs, e.n), max), LastOf(f.last, e.n)), n);
      assert Of(f.out, n) + [] == Of(f.out, n);
    }
  }

  /**
   Over a whole run, with appends and removals between the snapshots of different names, each sandbox's output is that
   of a follower of this sandbox alone whose turns are its own snapshots.
   */
  lemma {:induction false} FleetIsManyFollowers(events: seq<FleetEvent>, max: nat, n: string)
    ensures Alone(FleetRun(events, max), n) == Run(Own(events, n), max, "", "", 0)
  {
    if events != [] {
      var before, e := events[..|events| - 1], events[|events| - 1];
      FleetIsManyFollowers(before, max, n);
      StepServesItsOwn(FleetRun(before, max), max, e, n);
      assert Own(before, n) + [] == Own(before, n);
      assert (Own(before, n) + [e.ev])[..|Own(before, n)|] == Own(before, n);
    }
  }

  lemma {:induction false} OwnDated(events: seq<FleetEvent>, n: string)
    requires forall i | 0 <= i < |events| && events[i].ev.Arrive? :: Dated(events[i].ev.lines)
    ensures EventsDated(Own(events, n))
  {
    if events != [] {
      OwnDated(events[..|events| - 1], n);
    }
  }

  /** Per sandbox, the client has every line exactly when the timestamps strictly increase and none left that sandbox's
      buffer between two of its snapshots. */
  lemma FleetIsComplete(events: seq<FleetEvent>, max: nat, n: string)
    requires forall i | 0 <= i < |events| && events[i].ev.Arrive? :: Dated(events[i].ev.lines)
    ensures var r := Recorded(Own(events, n), max);
            var wanted := Wanted(r.all[..r.seen], "", "", 0);
            Of(FleetRun(events, max).out, n) == wanted <==> Increasing(wanted) && Wanted(r.lost, "", "", 0) == []
  {
    FleetIsManyFollowers(events, max, n);
    OwnDated(events, n);
    FollowIsComplete(Own(events, n), max, "", "", 0);
  }

  // --- The loops ---

  lemma PrintOneMore(out: seq<(string, Line)>, last: map<string, Time>, n: string, lines: seq<Line>, ln: Line)
    ensures out + Tagged(n, lines) + [(n, ln)] == out + Tagged(n, lines + [ln])
    ensures Moved(last, n, lines)[n := ln.ts] == Moved(last, n, lines + [ln])
  {
    assert (lines + [ln])[..|lines|] == lines;
  }

  /** The inner loop: prints one sandbox's new lines with its name and moves its `last`. */
  method ServeOne(n: string, window: seq<Line>, out: seq<(string, Line)>, last: map<string, Time>)
      returns (out': seq<(string, Line)>, last': map<string, Time>)
    ensures out' == out + Tagged(n, OneTurn(window, LastOf(last, n)))
    ensures last' == Moved(last, n, OneTurn(window, LastOf(last, n)))
  {
    var sent := LastOf(last, n);
    var lines := Select(window, Query(sent, "", ""));
    out', last' := out, last;
    for i := 0 to |lines|
      invariant out' == out + Tagged(n, Emit(lines[..i], sent))
      invariant last' == Moved(last, n, Emit(lines[..i], sent))
    {
      EmitSnoc(lines[..i], lines[i], sent);
      assert lines[..i + 1] == lines[..i] + [lines[i]];
      PrintOneMore(out, last, n, Emit(lines[..i], sent), lines[i]);
      if !Skips(LastOf(last', n), lines[i]) {
        out' := out' + [(n, lines[i])];
        last' := last'[n := lines[i].ts];
      }
    }
    assert lines[..|lines|] == lines;
  }

  /** The events of one pass over the names: before each name is served, appends and removals may come in. */
  function PassEvents(names: seq<string>, between: seq<seq<FleetEvent>>): seq<FleetEvent>
    requires |between| == |names|
  {
    if names == [] then []
    else
      var i := |names| - 1;
      PassEvents(names[..i], between[..i]) + between[i] + [On(names[i], Turn)]
  }

  /** snaps[i] is what the buffer of names[i] holds when the pass comes to it. */
  ghost predicate SnapsTaken(past: seq<FleetEvent>, names: seq<string>, between: seq<seq<FleetEvent>>,
                             snaps: seq<seq<Line>>, max: nat)
    requires |between| == |names| == |snaps|
  {
    forall i | 0 <= i < |names| ::
      var f := FleetRun(past + PassEvents(names[..i], between[..i]) + between[i], max);
      snaps[i] == Last(LogOf(f.logs, names[i]), max)
  }

  lemma {:induction false} QuietKeepsOutput(past: seq<FleetEvent>, quiet: seq<FleetEvent>, max: nat)
    requires forall i | 0 <= i < |quiet| :: !quiet[i].ev.Turn?
    ensures FleetRun(past + quiet, max).out == FleetRun(past, max).out
    ensures FleetRun(past + quiet, max).last == FleetRun(past, max).last
  {
    if quiet == [] {
      assert past + quiet == past;
    } else {
      assert (past + quiet)[..|past + quiet| - 1] == past + quiet[..|quiet| - 1];
      QuietKeepsOutput(past, quiet[..|quiet| - 1], max);
    }
  }

  lemma ServeIsTurn(past: seq<FleetEvent>, quiet: seq<FleetEvent>, n: string, max: nat)
    requires forall i | 0 <= i < |quiet| :: !quiet[i].ev.Turn?
    ensures var f, g := FleetRun(past, max), FleetRun(past + quiet + [On(n, Turn)], max);
            var lines := OneTurn(Last(LogOf(FleetRun(past + quiet, max).logs, n), max), LastOf(f.last, n));
            g.out == f.out + Tagged(n, lines) && g.last == Moved(f.last, n, lines)
  {
    QuietKeepsOutput(past, quiet, max);
    assert (past + quiet + [On(n, Turn)])[..|past + quiet|] == past + quiet;
  }

  lemma PassSnoc(past: seq<FleetEvent>, names: seq<string>, between: seq<seq<FleetEvent>>, i: nat)
    requires |between| == |names| && i < |names|
    ensures past + PassEvents(names[..i + 1], between[..i + 1]) ==
              past + PassEvents(names[..i], between[..i]) + between[i] + [On(names[i], Turn)]
  {
    assert names[..i + 1][..i] == names[..i] && between[..i + 1][..i] == between[..i];
  }

  /** The middle loop: one pass over the names is the run of its events, wherever appends come in between. */
  method ServeAll(names: seq<string>, snaps: seq<seq<Line>>, out: seq<(string, Line)>, last: map<string, Time>,
                  ghost past: seq<FleetEvent>, ghost between: seq<seq<FleetEvent>>, ghost max: nat)
      returns (out': seq<(string, Line)>, last': map<string, Time>)
    requires |between| == |names| == |snaps| && SnapsTaken(past, names, between, snaps, max)
    requires forall i, j | 0 <= i < |names| && 0 <= j < |between[i]| :: !between[i][j].ev.Turn?
    requires out == FleetRun(past, max).out && last == FleetRun(past, max).last
    ensures var f := FleetRun(past + PassEvents(names, between), max); out' == f.out && last' == f.last
  {
    out', last' := out, last;
    assert past + [] == past;
    for i := 0 to |names|
      invariant var f := FleetRun(past + PassEvents(names[..i], between[..i]), max); out' == f.out && last' == f.last
    {
      ServeIsTurn(past + PassEvents(names[..i], between[..i]), between[i], names[i], max);
      PassSnoc(past, names, between, i);
      out', last' := ServeOne(names[i], snaps[i], out', last');
    }
    assert names[..|names|] == names && between[..|names|] == between;
  }
}
