/**
 The store across failed flushes, crashes and restarts. One action is the
 in-memory part of a call, one stage of a flush, a crash or a start; a crash may
 come between any two of them, and in the middle of the write.

 `applied` and `durable` are histories: the calls whose effect is in memory, and
 those whose effect was in memory at the last completed rename.
 */
module StoreMachine {
  import opened Options
  import opened StoreState

  datatype Stage = ToWrite | ToChmod | ToRename

  /** Flushing(None, _) is the flush at the end of Open. */
  datatype Phase = Down | Idle | Flushing(op: Option<Op>, stage: Stage)

  /** `drawn` holds every call begun so far, `clockNs` bounds the reap times so far; the clock may go back. */
  datatype Machine = Machine(
    node: Node, phase: Phase, applied: seq<Op>, durable: seq<Op>, drawn: set<Op>, clockNs: int)

  datatype Action =
    | Begin(op: Op)
    | FailMarshal
    | Write
    | FailWrite(left: Option<Content>)
    | Chmod
    | FailChmod
    | Rename
    | FailRename
    | Crash(left: Option<Content>)
    | Boot

  ghost predicate IsInitial(m: Machine) {
    m.phase.Down? && m.node.main == None && m.applied == [] && m.durable == [] && m.drawn == {}
  }

  /** Secrets and ids are random: none repeats one drawn earlier, even by a call whose effect was lost. */
  ghost predicate FreshFor(drawn: set<Op>, op: Op) {
    && (op.CreateSession? ==>
          op.tok != "" && forall p | p in drawn && p.CreateSession? :: p.tok != op.tok && p.id != op.id)
    && (op.Issue? ==> op.tok != "" && forall p | p in drawn && p.Issue? :: p.tok != op.tok)
  }

  predicate AtStage(m: Machine, stage: Stage) {
    m.phase.Flushing? && m.phase.stage == stage
  }

  ghost predicate Enabled(m: Machine, a: Action) {
    match a
    case Begin(op) => m.phase.Idle? && FreshFor(m.drawn, op)
    case FailMarshal => AtStage(m, ToWrite)
    case Write => AtStage(m, ToWrite)
    case FailWrite(_) => AtStage(m, ToWrite)
    case Chmod => AtStage(m, ToChmod)
    case FailChmod => AtStage(m, ToChmod)
    case Rename => AtStage(m, ToRename)
    case FailRename => AtStage(m, ToRename)
    case Crash(_) => !m.phase.Down?
    case Boot => m.phase.Down? && m.node.main != Some(Garbled)
  }

  /** A call that fails returns an error to its caller; an Open that fails ends the process. */
  function Failed(m: Machine): Phase
    requires m.phase.Flushing?
  {
    if m.phase.op.Some? then Idle else Down
  }

  ghost function Next(m: Machine, a: Action): Machine
    requires Enabled(m, a)
  {
    match a
    case Begin(op) =>
      m.(node := m.node.(mem := Apply(m.node.mem, op)),
         phase := if Flushes(m.node.mem, op) then Flushing(Some(op), ToWrite) else Idle,
         applied := m.applied + [op], drawn := m.drawn + {op},
         clockNs := if op.Reap? && op.nowNs > m.clockNs then op.nowNs else m.clockNs)
    case FailMarshal => m.(phase := Failed(m))
    case Write => m.(node := Written(m.node), phase := m.phase.(stage := ToChmod))
    case FailWrite(left) => m.(node := m.node.(tmp := left), phase := Failed(m))
    case Chmod => m.(phase := m.phase.(stage := ToRename))
    case FailChmod => m.(phase := Failed(m))
    case Rename => m.(node := Renamed(m.node), phase := Idle, durable := m.applied)
    case FailRename => m.(phase := Failed(m))
    case Crash(left) =>
      m.(node := if AtStage(m, ToWrite) then m.node.(tmp := left) else m.node, phase := Down)
    case Boot =>
      m.(node := m.node.(mem := Loaded(m.node.main)), phase := Flushing(None, ToWrite), applied := m.durable)
  }

  ghost predicate IsRun(states: seq<Machine>, actions: seq<Action>) {
    && |states| == |actions| + 1
    && IsInitial(states[0])
    && forall i | 0 <= i < |actions| :: StepAt(states, actions, i)
  }

  ghost predicate StepAt(states: seq<Machine>, actions: seq<Action>, i: nat)
    requires i < |actions| && |states| == |actions| + 1
  {
    Enabled(states[i], actions[i]) && states[i + 1] == Next(states[i], actions[i])
  }

  // --- The stages of a flush add up to the store's own calls ---

  /** The actions a call goes through under a given fault. */
  function Stages(f: Fault): seq<Action> {
    match f
    case NoFault => [Write, Chmod, Rename]
    case MarshalFault => [FailMarshal]
    case WriteFault(left) => [FailWrite(left)]
    case ChmodFault => [Write, FailChmod]
    case RenameFault => [Write, Chmod, FailRename]
  }

  ghost predicate Leads(m: Machine, actions: seq<Action>, k: Machine)
    decreases actions
  {
    if actions == [] then m == k else Enabled(m, actions[0]) && Leads(Next(m, actions[0]), actions[1..], k)
  }

  /** A whole call is its in-memory part followed by the stages of its flush, and it ends idle. */
  lemma CallIsItsStages(m: Machine, op: Op, f: Fault) returns (k: Machine)
    requires Enabled(m, Begin(op))
    ensures Leads(m, [Begin(op)] + if Flushes(m.node.mem, op) then Stages(f) else [], k)
    ensures k.phase == Idle && k.node == Call(m.node, op, f)
    ensures k.durable == if Flushes(m.node.mem, op) && f.NoFault? then m.applied + [op] else m.durable
  {
    var b := Next(m, Begin(op));
    if !Flushes(m.node.mem, op) {
      k := b;
      LeadsBack(m, Begin(op), [], k);
    } else {
      k := FlushIsItsStages(b, f);
      LeadsBack(m, Begin(op), Stages(f), k);
    }
  }

  /** The process may die between any two stages, with anything in the temporary file during the write; that touches
      neither state.json nor the histories. */
  lemma MayCrashAnytime(m: Machine, left: Option<Content>)
    requires !m.phase.Down?
    ensures Enabled(m, Crash(left))
    ensures var k := Next(m, Crash(left));
            && k.phase.Down? && k.node.main == m.node.main && k.durable == m.durable
            && (AtStage(m, ToWrite) ==> k.node.tmp == left)
  {
  }

  /** A whole Open is its load followed by the stages of its flush; if that fails, the process is down again. */
  lemma OpenIsItsStages(m: Machine, f: Fault) returns (k: Machine)
    requires Enabled(m, Boot)
    ensures Leads(m, [Boot] + Stages(f), k)
    ensures k.phase == (if f.NoFault? then Idle else Down)
    ensures k.node == Flush(Node(Loaded(m.node.main), m.node.main, m.node.tmp), f)
    ensures k.applied == k.durable == m.durable
  {
    k := FlushIsItsStages(Next(m, Boot), f);
    LeadsBack(m, Boot, Stages(f), k);
  }

  lemma LeadsBack(m: Machine, a: Action, rest: seq<Action>, k: Machine)
    requires Enabled(m, a) && Leads(Next(m, a), rest, k)
    ensures Leads(m, [a] + rest, k)
  {
    assert ([a] + rest)[1..] == rest;
  }

  lemma FlushIsItsStages(b: Machine, f: Fault) returns (k: Machine)
    requires AtStage(b, ToWrite)
    ensures Leads(b, Stages(f), k)
    ensures k.phase == (if f.NoFault? then Idle else Failed(b)) && k.node == Flush(b.node, f)
    ensures k.durable == (if f.NoFault? then b.applied else b.durable) && k.applied == b.applied
  {
    match f
    case MarshalFault => k := Next(b, FailMarshal);
    case WriteFault(left) => k := Next(b, FailWrite(left));
    case ChmodFault =>
      k := Next(Next(b, Write), FailChmod);
      LeadsBack(b, Write, [FailChmod], k);
    case _ =>
      var c := Next(Next(b, Write), Chmod);
      var last := if f.NoFault? then Rename else FailRename;
      k := Next(c, last);
      LeadsBack(Next(b, Write), Chmod, [last], k);
      LeadsBack(b, Write, [Chmod] + [last], k);
      assert Stages(f) == [Write] + ([Chmod] + [last]);
  }

  // --- Memory and disk are histories ---

  ghost predicate DiskIs(m: Machine) {
    m.node.main == Some(Json(After(m.durable))) || (m.node.main == None && m.durable == [])
  }

  ghost predicate MemoryIs(m: Machine) {
    m.phase.Down? || (m.node.mem == After(m.applied) && m.durable <= m.applied)
  }

  ghost predicate TmpIs(m: Machine) {
    && (AtStage(m, ToChmod) || AtStage(m, ToRename) ==> m.node.tmp == Some(Json(m.node.mem)))
    && (m.phase.Flushing? && m.phase.op.Some? ==>
          m.applied != [] && m.applied[|m.applied| - 1] == m.phase.op.value
          && Flushes(After(m.applied[..|m.applied| - 1]), m.phase.op.value))
  }

  ghost predicate Historical(m: Machine) {
    DiskIs(m) && MemoryIs(m) && TmpIs(m)
  }

  lemma StepKeepsHistorical(m: Machine, a: Action)
    requires Historical(m) && Enabled(m, a)
    ensures Historical(Next(m, a))
  {
    match a
    case Begin(op) =>
      assert (m.applied + [op])[..|m.applied|] == m.applied;
    case _ =>
  }

  lemma {:induction false} RunKeepsHistorical(states: seq<Machine>, actions: seq<Action>, k: nat)
    requires IsRun(states, actions) && k < |states|
    ensures Historical(states[k])
  {
    if k > 0 {
      RunKeepsHistorical(states, actions, k - 1);
      assert StepAt(states, actions, k - 1);
      StepKeepsHistorical(states[k - 1], actions[k - 1]);
    }
  }
}
