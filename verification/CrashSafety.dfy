/** What survives failed flushes, crashes and restarts of the store. */
module CrashSafety {
  import opened Options
  import opened StoreState
  import opened CredentialTraces
  import opened StoreMachine

  // --- Recovery ---

  /** state.json changes only at a completed rename, which puts the whole in-memory state there. */
  lemma {:induction false} DiskSinceRename(states: seq<Machine>, actions: seq<Action>, i: nat, k: nat)
    requires IsRun(states, actions) && i < k < |states| && actions[i] == Rename
    requires forall j | i < j < k :: actions[j] != Rename
    ensures states[k].node.main == Some(Json(states[i].node.mem))
  {
    assert StepAt(states, actions, k - 1);
    if k == i + 1 {
      RunKeepsHistorical(states, actions, i);
    } else {
      DiskSinceRename(states, actions, i, k - 1);
    }
  }

  lemma {:induction false} DiskBeforeRename(states: seq<Machine>, actions: seq<Action>, k: nat)
    requires IsRun(states, actions) && k < |states|
    requires forall j | 0 <= j < k :: actions[j] != Rename
    ensures states[k].node.main == None
  {
    if k > 0 {
      assert StepAt(states, actions, k - 1);
      DiskBeforeRename(states, actions, k - 1);
    }
  }

  /** Open never meets a half-written state file, wherever the process died. */
  lemma OpenAlwaysParses(states: seq<Machine>, actions: seq<Action>, k: nat)
    requires IsRun(states, actions) && k < |states| && states[k].phase.Down?
    ensures Enabled(states[k], Boot)
  {
    RunKeepsHistorical(states, actions, k);
  }

  /** A start recovers exactly the memory of the last completed rename, or the empty state if there was none. */
  lemma OpenRecoversLastRename(states: seq<Machine>, actions: seq<Action>, i: nat, k: nat)
    requires IsRun(states, actions) && k < |actions| && actions[k] == Boot
    requires i < k && actions[i] == Rename && (forall j | i < j < k :: actions[j] != Rename)
    ensures states[k + 1].node.mem == states[i].node.mem
  {
    assert StepAt(states, actions, k);
    DiskSinceRename(states, actions, i, k);
  }

  lemma OpenStartsEmpty(states: seq<Machine>, actions: seq<Action>, k: nat)
    requires IsRun(states, actions) && k < |actions| && actions[k] == Boot
    requires forall j | 0 <= j < k :: actions[j] != Rename
    ensures states[k + 1].node.mem == EMPTY_STATE
  {
    assert StepAt(states, actions, k);
    DiskBeforeRename(states, actions, k);
  }

  // --- Freshness of the histories ---

  ghost predicate Among(ops: seq<Op>, drawn: set<Op>) {
    forall i | 0 <= i < |ops| :: ops[i] in drawn
  }

  ghost predicate DrawnDistinct(drawn: set<Op>) {
    && (forall p, q | p in drawn && q in drawn && p.CreateSession? && q.CreateSession? && p.tok == q.tok :: p == q)
    && (forall p, q | p in drawn && q in drawn && p.Issue? && q.Issue? && p.tok == q.tok :: p == q)
  }

  ghost predicate ClockCovers(m: Machine) {
    forall p | p in m.drawn && p.Reap? :: p.nowNs <= m.clockNs
  }

  ghost predicate Fresh(m: Machine) {
    && FreshSecrets(m.applied) && FreshSecrets(m.durable)
    && Among(m.applied, m.drawn) && Among(m.durable, m.drawn)
    && DrawnDistinct(m.drawn) && ClockCovers(m)
  }

  lemma AppendKeepsFresh(ops: seq<Op>, op: Op, drawn: set<Op>)
    requires FreshSecrets(ops) && Among(ops, drawn) && FreshFor(drawn, op)
    ensures FreshSecrets(ops + [op]) && Among(ops + [op], drawn + {op})
  {
    var more := ops + [op];
    forall i | 0 <= i < |more| ensures more[i] == if i < |ops| then ops[i] else op {}
  }

  lemma StepKeepsFresh(m: Machine, a: Action)
    requires Fresh(m) && Enabled(m, a)
    ensures Fresh(Next(m, a))
  {
    match a
    case Begin(op) =>
      AppendKeepsFresh(m.applied, op, m.drawn);
    case _ =>
  }

  lemma {:induction false} RunKeepsFresh(states: seq<Machine>, actions: seq<Action>, k: nat)
    requires IsRun(states, actions) && k < |states|
    ensures Fresh(states[k])
  {
    if k > 0 {
      RunKeepsFresh(states, actions, k - 1);
      assert StepAt(states, actions, k - 1);
      StepKeepsFresh(states[k - 1], actions[k - 1]);
    }
  }

  // --- What a running store accepts, through failures and restarts ---

  /** At any point of any run, validation answers, errors included, what the history of effects in memory implies. */
  lemma AnsweredFromHistory(states: seq<Machine>, actions: seq<Action>, k: nat,
                            tok: string, s: string, nowNs: int, v: Verdict)
    requires IsRun(states, actions) && k < |states| && !states[k].phase.Down?
    requires MayAnswer(states[k].node.mem, tok, s, nowNs, v)
    ensures var ops := states[k].applied;
            && (forall i: nat | Minted(ops, i) && ops[i].tok == tok :: v == Answer(ops, i, s, nowNs))
            && ((forall i: nat | Minted(ops, i) :: ops[i].tok != tok) ==> v == Err(SessionNotFound))
  {
    RunKeepsHistorical(states, actions, k);
    RunKeepsFresh(states, actions, k);
    AnswerByHistory(states[k].applied, tok, s, nowNs, v);
  }

  /** At any point of any run, validation accepts exactly the sessions that stand in the history of effects in memory,
      whatever the clock did. */
  lemma AcceptedIffStandsInHistory(states: seq<Machine>, actions: seq<Action>, k: nat,
                                   tok: string, s: string, nowNs: int, v: Verdict)
    requires IsRun(states, actions) && k < |states| && !states[k].phase.Down?
    requires MayAnswer(states[k].node.mem, tok, s, nowNs, v)
    ensures var ops := states[k].applied;
            && (v.Ok? <==> exists i: nat :: Stands(ops, i, tok, s, nowNs))
            && (v.Ok? ==> exists i: nat :: Stands(ops, i, tok, s, nowNs) && v.value == SessionOf(ops[i]))
  {
    RunKeepsHistorical(states, actions, k);
    RunKeepsFresh(states, actions, k);
    SessionAcceptedIffStands(states[k].applied, tok, s, nowNs, v);
  }

  /** From the latest reap time on, these are exactly the live sessions. */
  lemma AcceptedIffLiveInHistory(states: seq<Machine>, actions: seq<Action>, k: nat,
                                 tok: string, s: string, nowNs: int, v: Verdict)
    requires IsRun(states, actions) && k < |states| && !states[k].phase.Down? && states[k].clockNs <= nowNs
    requires MayAnswer(states[k].node.mem, tok, s, nowNs, v)
    ensures var ops := states[k].applied;
            && (v.Ok? <==> exists i: nat :: Live(ops, i, tok, s, nowNs))
            && (v.Ok? ==> exists i: nat :: Live(ops, i, tok, s, nowNs) && v.value == SessionOf(ops[i]))
  {
    RunKeepsHistorical(states, actions, k);
    RunKeepsFresh(states, actions, k);
    SessionAcceptedIffLive(states[k].applied, tok, s, nowNs, v);
  }

  lemma ResolvedIffLatestInHistory(states: seq<Machine>, actions: seq<Action>, k: nat,
                                   tok: string, s: string, r: Option<string>)
    requires IsRun(states, actions) && k < |states| && !states[k].phase.Down?
    requires MayResolve(states[k].node.mem, tok, r)
    ensures r == Some(s) <==> exists i: nat :: Holds(states[k].applied, i, |states[k].applied|, s, tok)
  {
    RunKeepsHistorical(states, actions, k);
    RunKeepsFresh(states, actions, k);
    TokenResolvesIffLatest(states[k].applied, tok, s, r);
  }

  // --- Acknowledged calls are permanent ---

  /** Step i completes the flush of op, so the call returns success. */
  ghost predicate Acknowledged(states: seq<Machine>, actions: seq<Action>, i: nat, op: Op)
    requires IsRun(states, actions)
  {
    i < |actions| && actions[i] == Rename && states[i].phase == Flushing(Some(op), ToRename)
  }

  lemma {:induction false} DurableGrows(states: seq<Machine>, actions: seq<Action>, i: nat, k: nat)
    requires IsRun(states, actions) && i <= k < |states|
    ensures states[i].durable <= states[k].durable
    decreases k - i
  {
    if i < k {
      DurableGrows(states, actions, i, k - 1);
      assert StepAt(states, actions, k - 1);
      RunKeepsHistorical(states, actions, k - 1);
    }
  }

  /** Calls in the later part of a history were begun later, so their secrets are new. */
  ghost predicate NewBeyond(ops: seq<Op>, n: nat, drawn: set<Op>) {
    forall x | n <= x < |ops| && (ops[x].CreateSession? || ops[x].Issue?) :: ops[x] !in drawn
  }

  lemma {:induction false} LaterCallsAreNew(states: seq<Machine>, actions: seq<Action>, i: nat, k: nat)
    requires IsRun(states, actions) && i < k < |states| && actions[i] == Rename
    ensures NewBeyond(states[k].durable, |states[i + 1].durable|, states[i + 1].drawn)
    ensures NewBeyond(states[k].applied, |states[i + 1].durable|, states[i + 1].drawn)
    ensures states[i + 1].drawn <= states[k].drawn
    decreases k
  {
    assert StepAt(states, actions, k - 1);
    if k > i + 1 {
      LaterCallsAreNew(states, actions, i, k - 1);
    }
  }

  /** An acknowledged call keeps its place in every later history of the memory. */
  lemma AcknowledgedStays(states: seq<Machine>, actions: seq<Action>, i: nat, k: nat, op: Op) returns (n: nat)
    requires IsRun(states, actions) && i < k < |states| && !states[k].phase.Down?
    requires Acknowledged(states, actions, i, op)
    ensures n + 1 == |states[i + 1].durable| <= |states[k].applied|
    ensures states[k].applied[n] == op && Flushes(After(states[k].applied[..n]), op)
  {
    assert StepAt(states, actions, i);
    RunKeepsHistorical(states, actions, i);
    RunKeepsHistorical(states, actions, k);
    DurableGrows(states, actions, i + 1, k);
    n := |states[i].applied| - 1;
    assert states[k].applied[..n] == states[i].applied[..n];
  }

  /** A revocation that returned success is never undone: no later validation accepts that session, at any time. */
  lemma RevokeIsPermanent(states: seq<Machine>, actions: seq<Action>, i: nat, k: nat, id: string,
                          tok: string, s: string, nowNs: int, v: Verdict)
    requires IsRun(states, actions) && i < k < |states| && Acknowledged(states, actions, i, Revoke(id))
    requires !states[k].phase.Down? && MayAnswer(states[k].node.mem, tok, s, nowNs, v)
    ensures v.Ok? ==> v.value.id != id
  {
    var n := AcknowledgedStays(states, actions, i, k, Revoke(id));
    var ops := states[k].applied;
    RunKeepsFresh(states, actions, k);
    AcceptedIffStandsInHistory(states, actions, k, tok, s, nowNs, v);
    if v.Ok? {
      var x: nat :| Stands(ops, x, tok, s, nowNs) && v.value == SessionOf(ops[x]);
      var y := Origin(ops, n, id);
    }
  }

  /** A deletion that returned success kills every session token minted for that sandbox until then, for good. */
  lemma DeleteEndsSessions(states: seq<Machine>, actions: seq<Action>, i: nat, k: nat, minted: Op,
                           s: string, nowNs: int, v: Verdict)
    requires IsRun(states, actions) && i < k < |states|
    requires minted.CreateSession? && minted in states[i + 1].drawn
    requires Acknowledged(states, actions, i, Delete(minted.sandbox))
    requires !states[k].phase.Down? && MayAnswer(states[k].node.mem, minted.tok, s, nowNs, v)
    ensures v.Err?
  {
    var n := AcknowledgedStays(states, actions, i, k, Delete(minted.sandbox));
    var ops := states[k].applied;
    RunKeepsFresh(states, actions, k);
    LaterCallsAreNew(states, actions, i, k);
    AcceptedIffStandsInHistory(states, actions, k, minted.tok, s, nowNs, v);
    assert forall x: nat :: !Stands(ops, x, minted.tok, s, nowNs);
  }

  /** A deletion or a rotation that returned success kills every earlier supervisor token of that sandbox, for good. */
  lemma DeleteOrRotateEndsTokens(states: seq<Machine>, actions: seq<Action>, i: nat, k: nat,
                                 issued: Op, op: Op, r: Option<string>)
    requires IsRun(states, actions) && i < k < |states|
    requires issued.Issue? && issued in states[i + 1].drawn
    requires Acknowledged(states, actions, i, op) && op != issued
    requires op == Delete(issued.name) || (op.Issue? && op.name == issued.name)
    requires !states[k].phase.Down? && MayResolve(states[k].node.mem, issued.tok, r)
    ensures r == None
  {
    var n := AcknowledgedStays(states, actions, i, k, op);
    var ops := states[k].applied;
    RunKeepsFresh(states, actions, k);
    LaterCallsAreNew(states, actions, i, k);
    if r.Some? {
      ResolvedIffLatestInHistory(states, actions, k, issued.tok, r.value, r);
    }
  }
}
