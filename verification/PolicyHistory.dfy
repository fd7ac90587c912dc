/** The retained policy revisions of a sandbox against the full history of policies set on it. */
module PolicyHistory {
  import opened Sequences
  import opened StoreState
  import StoreMachine

  /** Every policy stored by SetBasePolicy since the sandbox was last deleted (or since the beginning), in order. */
  ghost function PoliciesSet(ops: seq<Op>, name: string): seq<string> {
    if ops == [] then []
    else
      var before := ops[..|ops| - 1];
      var hist := PoliciesSet(before, name);
      match ops[|ops| - 1]
      case SetBase(n, yaml) => if n == name && n in After(before).sandboxes then hist + [yaml] else hist
      case Delete(n) => if n == name then [] else hist
      case _ => hist
  }

  /** The revision list an unbounded store would keep: numbered from 1. */
  function Numbered(hist: seq<string>): (revs: seq<PolicyRevision>)
    ensures |revs| == |hist|
    ensures forall i | 0 <= i < |hist| :: revs[i] == PolicyRevision(i + 1, |hist[i]|, "loaded", hist[i])
  {
    if hist == [] then []
    else Numbered(hist[..|hist| - 1]) + [PolicyRevision(|hist|, |hist[|hist| - 1]|, "loaded", hist[|hist| - 1])]
  }

  /** The record shows exactly the last 32 of the policies in hist, numbered up to policyRev. */
  ghost predicate Shows(sb: Sandbox, hist: seq<string>) {
    sb.policyRev == |hist| && sb.policyRevisions == Last(Numbered(hist), 32)
  }

  lemma NumberedSnoc(hist: seq<string>, yaml: string)
    ensures Numbered(hist + [yaml]) == Numbered(hist) + [PolicyRevision(|hist| + 1, |yaml|, "loaded", yaml)]
  {
    assert (hist + [yaml])[..|hist|] == hist;
  }

  /** Storing one more policy keeps the record in step with the history. */
  lemma WithBaseShows(sb: Sandbox, hist: seq<string>, yaml: string)
    requires Shows(sb, hist)
    ensures Shows(WithBase(sb, yaml), hist + [yaml])
  {
    NumberedSnoc(hist, yaml);
    LastOfConcat(Numbered(hist), [PolicyRevision(|hist| + 1, |yaml|, "loaded", yaml)], 32);
  }

  /** The record of `name`, if there is one, shows hist; without a record there is no history. */
  ghost predicate InStep(st: State, name: string, hist: seq<string>) {
    if name in st.sandboxes then Shows(st.sandboxes[name], hist) else hist == []
  }

  /** The upsert leaves each revision field empty or repeats what is stored; for a new name it leaves both empty. */
  predicate KeepsRevisions(st: State, sb: Sandbox) {
    if sb.name in st.sandboxes then
      && (sb.policyRev == 0 || sb.policyRev == st.sandboxes[sb.name].policyRev)
      && (sb.policyRevisions == [] || sb.policyRevisions == st.sandboxes[sb.name].policyRevisions)
    else sb.policyRev == 0 && sb.policyRevisions == []
  }

  /** An upsert, of a known or a new name, keeps the record in step with the history exactly when it keeps the revision
      fields. */
  lemma UpsertKeepsHistoryIff(st: State, sb: Sandbox, hist: seq<string>)
    requires InStep(st, sb.name, hist)
    ensures InStep(Apply(st, Upsert(sb)), sb.name, hist) <==> KeepsRevisions(st, sb)
  {
  }

  ghost predicate UpsertsKeepRevisions(ops: seq<Op>, name: string) {
    forall i | 0 <= i < |ops| && ops[i].Upsert? && ops[i].sb.name == name :: KeepsRevisions(After(ops[..i]), ops[i].sb)
  }

  /** Upserts that supply no revision fields do. */
  lemma EmptyFieldsKeepRevisions(ops: seq<Op>, name: string)
    requires forall i | 0 <= i < |ops| && ops[i].Upsert? :: ops[i].sb.policyRev == 0 && ops[i].sb.policyRevisions == []
    ensures UpsertsKeepRevisions(ops, name)
  {
  }

  /** Calls other than storing a policy, upserting or deleting the sandbox leave its revisions alone. */
  lemma OtherCallKeepsInStep(st: State, op: Op, name: string, hist: seq<string>)
    requires InStep(st, name, hist) && !(op.Upsert? && op.sb.name == name)
    requires !((op.SetBase? || op.Delete?) && op.name == name)
    ensures InStep(Apply(st, op), name, hist)
  {
  }

  /** One call keeps the record in step with the history unless it is an upsert that does not keep the fields. */
  lemma CallKeepsInStepIff(ops: seq<Op>, name: string)
    requires ops != [] && InStep(After(ops[..|ops| - 1]), name, PoliciesSet(ops[..|ops| - 1], name))
    ensures var op := ops[|ops| - 1];
            InStep(After(ops), name, PoliciesSet(ops, name)) <==>
              (op.Upsert? && op.sb.name == name ==> KeepsRevisions(After(ops[..|ops| - 1]), op.sb))
  {
    var before, op := ops[..|ops| - 1], ops[|ops| - 1];
    var st, hist := After(before), PoliciesSet(before, name);
    if op.SetBase? && op.name == name {
      if name in st.sandboxes {
        WithBaseShows(st.sandboxes[name], hist, op.yaml);
      }
    } else if op.Upsert? && op.sb.name == name {
      UpsertKeepsHistoryIff(st, op.sb, hist);
    } else if !(op.Delete? && op.name == name) {
      OtherCallKeepsInStep(st, op, name, hist);
    }
  }

  /** After any run, the retained revisions are the last min(n, 32) of the n policies set. */
  lemma {:induction false} WindowRefinesHistory(ops: seq<Op>, name: string)
    requires UpsertsKeepRevisions(ops, name)
    ensures InStep(After(ops), name, PoliciesSet(ops, name))
  {
    if ops != [] {
      var before := ops[..|ops| - 1];
      forall i | 0 <= i < |before| ensures before[..i] == ops[..i] {}
      WindowRefinesHistory(before, name);
      CallKeepsInStepIff(ops, name);
    }
  }

  /** The window is right throughout a run exactly when every upsert of that name keeps the revision fields. */
  lemma {:induction false} WindowAlwaysRefinesIff(ops: seq<Op>, name: string)
    ensures (forall k | 0 <= k <= |ops| :: InStep(After(ops[..k]), name, PoliciesSet(ops[..k], name))) <==>
              UpsertsKeepRevisions(ops, name)
  {
    if UpsertsKeepRevisions(ops, name) {
      forall k | 0 <= k <= |ops| ensures InStep(After(ops[..k]), name, PoliciesSet(ops[..k], name)) {
        forall i | 0 <= i < k ensures ops[..k][..i] == ops[..i] {}
        WindowRefinesHistory(ops[..k], name);
      }
    } else {
      var i :| 0 <= i < |ops| && ops[i].Upsert? && ops[i].sb.name == name
        && !KeepsRevisions(After(ops[..i]), ops[i].sb);
      assert ops[..i + 1][..i] == ops[..i];
      if InStep(After(ops[..i]), name, PoliciesSet(ops[..i], name)) {
        CallKeepsInStepIff(ops[..i + 1], name);
      }
    }
  }

  /** Number k is retained exactly when it is one of the last 32, and then with the k-th text. */
  ghost predicate Finds(revs: seq<PolicyRevision>, hist: seq<string>, k: int) {
    && ((exists x :: x in revs && x.rev == k) <==> 1 <= k && |hist| - 32 < k <= |hist|)
    && forall x | x in revs && x.rev == k :: 1 <= k <= |hist| && x.yaml == hist[k - 1] && x.bytes == |x.yaml|
  }

  lemma NumbersFind(revs: seq<PolicyRevision>, hist: seq<string>, skipped: nat, k: int)
    requires |revs| + skipped == |hist|
    requires forall i | 0 <= i < |revs| :: revs[i].rev == skipped + i + 1
    ensures (exists x :: x in revs && x.rev == k) <==> skipped < k <= |hist|
    ensures forall x | x in revs && x.rev == k :: skipped < k && x == revs[k - 1 - skipped]
  {
    if skipped < k <= |hist| {
      assert revs[k - 1 - skipped] in revs;
    }
  }

  lemma WindowFinds(full: seq<PolicyRevision>, hist: seq<string>, k: int)
    requires |full| == |hist|
    requires forall i | 0 <= i < |hist| :: full[i] == PolicyRevision(i + 1, |hist[i]|, "loaded", hist[i])
    ensures Finds(Last(full, 32), hist, k)
  {
    var revs := Last(full, 32);
    var skipped := |hist| - |revs|;
    assert forall i | 0 <= i < |revs| :: revs[i] == full[skipped + i];
    NumbersFind(revs, hist, skipped, k);
  }

  /** GetPolicyRevision(k) finds the k-th policy ever set exactly when n - 32 < k <= n and k >= 1. */
  lemma RevisionFoundIff(ops: seq<Op>, name: string, k: int)
    requires UpsertsKeepRevisions(ops, name) && name in After(ops).sandboxes
    ensures Finds(After(ops).sandboxes[name].policyRevisions, PoliciesSet(ops, name), k)
  {
    WindowRefinesHistory(ops, name);
    var hist := PoliciesSet(ops, name);
    WindowFinds(Numbered(hist), hist, k);
  }

  /** The same holds through failed flushes, crashes and restarts, for the history of effects in memory. */
  lemma HistorySurvivesRestarts(states: seq<StoreMachine.Machine>, actions: seq<StoreMachine.Action>, k: nat,
                                name: string)
    requires StoreMachine.IsRun(states, actions) && k < |states| && !states[k].phase.Down?
    requires UpsertsKeepRevisions(states[k].applied, name)
    ensures InStep(states[k].node.mem, name, PoliciesSet(states[k].applied, name))
  {
    StoreMachine.RunKeepsHistorical(states, actions, k);
    WindowRefinesHistory(states[k].applied, name);
  }

  /** A caller that supplies a revision number breaks the numbering: the next policy set is revision 8 of one. */
  lemma UpsertMayForgeNumber()
    ensures var ops := [Upsert(Sandbox("a", map[], "", [], 7, [])), SetBase("a", "v")];
            && PoliciesSet(ops, "a") == ["v"]
            && "a" in After(ops).sandboxes && After(ops).sandboxes["a"].policyRev == 8
            && !Shows(After(ops).sandboxes["a"], PoliciesSet(ops, "a"))
  {
    var up, put := Upsert(Sandbox("a", map[], "", [], 7, [])), SetBase("a", "v");
    assert [up, put][..1] == [up] && [up][..0] == [];
    assert After([up]) == Apply(EMPTY_STATE, up);
    assert PoliciesSet([up], "a") == [];
  }
}
