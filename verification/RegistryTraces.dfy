/** What the registry holds about a sandbox or a proposal, in terms of the calls made on the store. */
module RegistryTraces {
  import opened Sequences
  import opened StoreState
  import opened CredentialTraces

  // --- Base policy text ---

  /** Call j gives the sandbox a base text: a SetBasePolicy of a known sandbox, or an upsert that supplies one. */
  ghost predicate GivesText(ops: seq<Op>, j: nat, name: string)
    requires j < |ops|
  {
    match ops[j]
    case SetBase(n, _) => n == name && Known(ops, j, name)
    case Upsert(sb) => sb.name == name && sb.basePolicyYaml != ""
    case _ => false
  }

  function TextOf(op: Op): string {
    match op
    case SetBase(_, yaml) => yaml
    case Upsert(sb) => sb.basePolicyYaml
    case _ => ""
  }

  /** Of the calls before k, j is the last one that gave the sandbox a text, and it was not deleted since. */
  ghost predicate LastText(ops: seq<Op>, j: nat, k: nat, name: string)
    requires k <= |ops|
  {
    j < k && GivesText(ops, j, name) && forall l | j < l < k :: !GivesText(ops, l, name) && ops[l] != Delete(name)
  }

  lemma ApplyText(st: State, op: Op, name: string)
    requires name in Apply(st, op).sandboxes
    ensures var text := Apply(st, op).sandboxes[name].basePolicyYaml;
            && (op.SetBase? && op.name == name ==> text == op.yaml && name in st.sandboxes)
            && (op.Upsert? && op.sb.name == name && op.sb.basePolicyYaml != "" ==> text == op.sb.basePolicyYaml)
            && (!(op.SetBase? && op.name == name)
                && !(op.Upsert? && op.sb.name == name && op.sb.basePolicyYaml != "") ==>
                  text == if name in st.sandboxes then st.sandboxes[name].basePolicyYaml else "")
  {
  }

  /** A sandbox's base text is the one given last, by a policy change or by an upsert that is not silent about it; none
      if none was given since it was last deleted. */
  lemma {:induction false} BaseTextIsLatest(ops: seq<Op>, k: nat, name: string)
    requires k <= |ops| && name in After(ops[..k]).sandboxes
    ensures var text := After(ops[..k]).sandboxes[name].basePolicyYaml;
            && (forall j: nat | LastText(ops, j, k, name) :: text == TextOf(ops[j]))
            && ((forall j: nat :: !LastText(ops, j, k, name)) ==> text == "")
  {
    assert k > 0;
    var i: nat := k - 1;
    AfterStep(ops, i);
    KnownIff(ops, i, name);
    ApplyText(After(ops[..i]), ops[i], name);
    ApplyRegisters(After(ops[..i]), ops[i], name);
    if GivesText(ops, i, name) {
      assert LastText(ops, i, k, name);
    } else {
      if name in After(ops[..i]).sandboxes {
        BaseTextIsLatest(ops, i, name);
      }
      forall j: nat ensures LastText(ops, j, k, name) ==> LastText(ops, j, i, name) && Known(ops, i, name)
                    ensures LastText(ops, j, i, name) ==> LastText(ops, j, k, name) {
        SilentKeepsLastText(ops, j, i, name);
      }
    }
  }

  /** A call that gives no text and does not delete the sandbox leaves the last giver the last; that giver's sandbox is
      still registered. */
  lemma SilentKeepsLastText(ops: seq<Op>, j: nat, i: nat, name: string)
    requires i < |ops| && !GivesText(ops, i, name) && ops[i] != Delete(name)
    ensures LastText(ops, j, i + 1, name) <==> LastText(ops, j, i, name)
    ensures LastText(ops, j, i, name) ==> Known(ops, i, name)
  {
    if LastText(ops, j, i, name) {
      GiverStaysKnown(ops, j, i, name);
    }
  }

  lemma {:induction false} GiverStaysKnown(ops: seq<Op>, j: nat, k: nat, name: string)
    requires j < k <= |ops| && forall l | j < l < k :: ops[l] != Delete(name)
    requires ops[j] != Delete(name) && (Known(ops, j, name) || (ops[j].Upsert? && ops[j].sb.name == name))
    ensures Known(ops, k, name)
    decreases k
  {
    KnownStep(ops, k - 1, name);
    if k > j + 1 {
      GiverStaysKnown(ops, j, k - 1, name);
    }
  }

  // --- The rest of a record ---

  /** The fields an upsert always replaces are those of the latest one, and the record is filed under its own name. */
  lemma {:induction false} DetailsAreLatest(ops: seq<Op>, k: nat, name: string) returns (j: nat)
    requires k <= |ops| && name in After(ops[..k]).sandboxes
    ensures j < k && ops[j].Upsert? && ops[j].sb.name == name
    ensures forall l | j < l < k :: !(ops[l].Upsert? && ops[l].sb.name == name) && ops[l] != Delete(name)
    ensures After(ops[..k]).sandboxes[name].details == ops[j].sb.details
    ensures After(ops[..k]).sandboxes[name].name == name
  {
    assert k > 0;
    AfterStep(ops, k - 1);
    ApplyRegisters(After(ops[..k - 1]), ops[k - 1], name);
    ApplyDetails(After(ops[..k - 1]), ops[k - 1], name);
    if ops[k - 1].Upsert? && ops[k - 1].sb.name == name {
      j := k - 1;
    } else {
      j := DetailsAreLatest(ops, k - 1, name);
    }
  }

  lemma ApplyDetails(st: State, op: Op, name: string)
    requires name in Apply(st, op).sandboxes
    ensures var sb := Apply(st, op).sandboxes[name];
            if op.Upsert? && op.sb.name == name then sb.details == op.sb.details && sb.name == name
            else name in st.sandboxes && sb.details == st.sandboxes[name].details && sb.name == st.sandboxes[name].name
  {
  }

  // --- Attached providers ---

  ghost predicate Attached(st: State, name: string, provider: string) {
    name in st.sandboxes && provider in st.sandboxes[name].attachedProviders
  }

  /** An attach to a known sandbox, or an upsert whose list has the provider. */
  ghost predicate Gives(ops: seq<Op>, j: nat, name: string, provider: string)
    requires j < |ops|
  {
    || (ops[j] == Attach(name, provider) && Known(ops, j, name))
    || (ops[j].Upsert? && ops[j].sb.name == name && provider in ops[j].sb.attachedProviders)
  }

  /** A detach, a deletion of the sandbox, or an upsert whose list is not empty and lacks the provider. */
  predicate Withdraws(op: Op, name: string, provider: string) {
    || op == Detach(name, provider) || op == Delete(name)
    || (op.Upsert? && op.sb.name == name && op.sb.attachedProviders != [] && provider !in op.sb.attachedProviders)
  }

  ghost predicate GivenSince(ops: seq<Op>, j: nat, k: nat, name: string, provider: string)
    requires k <= |ops|
  {
    j < k && Gives(ops, j, name, provider) && forall l | j < l < k :: !Withdraws(ops[l], name, provider)
  }

  lemma {:induction false} WithoutKeepsOthers<T>(s: seq<T>, x: T, y: T)
    ensures y in Without(s, x) <==> y in s && y != x
  {
    if s != [] {
      WithoutKeepsOthers(s[1..], x, y);
    }
  }

  lemma ApplyAttached(st: State, op: Op, name: string, provider: string)
    ensures Attached(Apply(st, op), name, provider) <==>
              || (op == Attach(name, provider) && name in st.sandboxes)
              || (op.Upsert? && op.sb.name == name && provider in op.sb.attachedProviders)
              || (Attached(st, name, provider) && !Withdraws(op, name, provider))
  {
    if op.Detach? && op.name in st.sandboxes {
      WithoutKeepsOthers(st.sandboxes[op.name].attachedProviders, op.provider, provider);
    }
  }

  /** A provider is attached exactly when an attach or an upsert gave it and nothing since took it away. */
  lemma {:induction false} AttachedIffGiven(ops: seq<Op>, k: nat, name: string, provider: string)
    requires k <= |ops|
    ensures Attached(After(ops[..k]), name, provider) <==> exists j: nat :: GivenSince(ops, j, k, name, provider)
  {
    if k > 0 {
      var i: nat := k - 1;
      AttachedIffGiven(ops, i, name, provider);
      AfterStep(ops, i);
      KnownIff(ops, i, name);
      ApplyAttached(After(ops[..i]), ops[i], name, provider);
      if Gives(ops, i, name, provider) {
        assert GivenSince(ops, i, k, name, provider);
      } else if j: nat :| GivenSince(ops, j, i, name, provider) {
        assert !Withdraws(ops[i], name, provider) ==> GivenSince(ops, j, k, name, provider);
      }
      forall j: nat | GivenSince(ops, j, k, name, provider) && j < i
        ensures GivenSince(ops, j, i, name, provider) && !Withdraws(ops[i], name, provider) {}
    }
  }

  // --- Proposals ---

  /** Stores the proposal: PutProposal with an id and a sandbox. */
  predicate Stores(op: Op, id: string) {
    op.PutProposal? && op.p.id == id && id != "" && op.p.sandbox != ""
  }

  /** Decides it: DecideProposal with one of the two verdicts. */
  predicate Rules(op: Op, id: string) {
    op.Decide? && op.id == id && (op.status == "approved" || op.status == "rejected")
  }

  /** Among the calls before k, j is the last that stored the proposal. */
  predicate StoredAt(ops: seq<Op>, j: nat, k: nat, id: string)
    requires k <= |ops|
  {
    j < k && Stores(ops[j], id) && forall l | j < l < k :: !Stores(ops[l], id)
  }

  /** Among the calls between j and k, l is the last that decided it. */
  predicate RuledAt(ops: seq<Op>, j: nat, l: nat, k: nat, id: string)
    requires k <= |ops|
  {
    j < l < k && Rules(ops[l], id) && forall m | l < m < k :: !Rules(ops[m], id)
  }

  /** A new proposal without a status is pending. */
  function Submitted(p: Proposal): Proposal {
    Proposal(p.id, p.sandbox, if p.status == "" then "pending" else p.status, p.ruleName, p.ruleYaml, p.rejectionReason)
  }

  lemma ApplyProposal(st: State, op: Op, id: string)
    ensures id in Apply(st, op).proposals <==> id in st.proposals || Stores(op, id)
    ensures Stores(op, id) ==> Apply(st, op).proposals[id] == Submitted(op.p)
    ensures Rules(op, id) && id in st.proposals ==>
              Apply(st, op).proposals[id] == st.proposals[id].(status := op.status, rejectionReason := op.reason)
    ensures !Stores(op, id) && !Rules(op, id) && id in st.proposals ==> Apply(st, op).proposals[id] == st.proposals[id]
  {
  }

  /** A proposal is as last submitted, except that the last decision since then sets its status and reason, whatever the
      status was before. */
  lemma {:induction false} ProposalByHistory(ops: seq<Op>, j: nat, k: nat, id: string)
    requires k <= |ops| && StoredAt(ops, j, k, id)
    ensures id in After(ops[..k]).proposals
    ensures (forall l: nat :: !RuledAt(ops, j, l, k, id)) ==> After(ops[..k]).proposals[id] == Submitted(ops[j].p)
    ensures forall l: nat | RuledAt(ops, j, l, k, id) :: After(ops[..k]).proposals[id] ==
              Submitted(ops[j].p).(status := ops[l].status, rejectionReason := ops[l].reason)
    decreases k
  {
    var i: nat := k - 1;
    AfterStep(ops, i);
    ApplyProposal(After(ops[..i]), ops[i], id);
    if j < i && Rules(ops[i], id) {
      DecidedOnly(ops, j, i, id);
      assert RuledAt(ops, j, i, k, id);
    } else if j < i {
      ProposalByHistory(ops, j, i, id);
      assert forall l: nat :: RuledAt(ops, j, l, i, id) <==> RuledAt(ops, j, l, k, id);
    }
  }

  /** Up to its status and reason, the stored proposal is the submitted one. */
  lemma {:induction false} DecidedOnly(ops: seq<Op>, j: nat, k: nat, id: string)
    requires k <= |ops| && StoredAt(ops, j, k, id)
    ensures id in After(ops[..k]).proposals
    ensures var p := After(ops[..k]).proposals[id];
            Submitted(ops[j].p).(status := p.status, rejectionReason := p.rejectionReason) == p
    decreases k
  {
    AfterStep(ops, k - 1);
    ApplyProposal(After(ops[..k - 1]), ops[k - 1], id);
    if j < k - 1 {
      DecidedOnly(ops, j, k - 1, id);
    }
  }

  /** No proposal is there that was not stored. */
  lemma {:induction false} ProposalIffStored(ops: seq<Op>, k: nat, id: string)
    requires k <= |ops|
    ensures id in After(ops[..k]).proposals <==> exists j | 0 <= j < k :: Stores(ops[j], id)
  {
    if k > 0 {
      ProposalIffStored(ops, k - 1, id);
      AfterStep(ops, k - 1);
      ApplyProposal(After(ops[..k - 1]), ops[k - 1], id);
    }
  }

  // --- The global policy ---

  lemma {:induction false} GlobalIsLatest(ops: seq<Op>, j: nat, k: nat)
    requires j < k <= |ops| && ops[j].SetGlobal? && forall l | j < l < k :: !ops[l].SetGlobal?
    ensures After(ops[..k]).globalPolicyYaml == ops[j].yaml
    decreases k
  {
    AfterStep(ops, k - 1);
    if j < k - 1 {
      GlobalIsLatest(ops, j, k - 1);
    }
  }
}
