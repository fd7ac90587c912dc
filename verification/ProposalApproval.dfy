/** approveProposal (internal/httpapi/proposals.go): merge, change the base policy, then record the decision. */
module ProposalApproval {
  import opened Options
  import opened StoreState
  import opened Store
  import opened PolicyUpdate

  const EMPTY_POLICY := "version: 1\nnetwork_policies: {}\n"

  /** The base a proposal is merged into. */
  function MergeBase(e: Engine, st: State, sandbox: string): string
    requires sandbox in st.sandboxes
  {
    var base := st.sandboxes[sandbox].basePolicyYaml;
    if e.blank(base) then EMPTY_POLICY else base
  }

  /** The proposal is there, belongs to the sandbox, is not approved yet, and the sandbox exists. */
  predicate Applicable(st: State, sandbox: string, id: string) {
    && id in st.proposals && st.proposals[id].sandbox == sandbox && st.proposals[id].status != "approved"
    && sandbox in st.sandboxes
  }

  /** The store after approving an applicable proposal whose merge gave `merged`; f, g and d are flush faults. */
  function ApproveResult(e: Engine, n: Node, sandbox: string, id: string, merged: Option<string>,
                         f: Fault, g: Fault, d: Fault)
    : (Node, Result<(), PolicyError>)
  {
    if merged.None? then (n, Err(BadMerge))
    else
      var (m, r) := SetBaseResult(e, n, sandbox, merged.value, f, g);
      if r.Err? then (m, Err(r.error))
      else (Call(m, Decide(id, "approved", ""), d), if d.NoFault? then Ok(()) else Err(DecisionFailed))
  }

  /** The part of approveProposal after the merge. */
  method ApplyMerged(st: Store, e: Engine, sandbox: string, id: string, text: string, f: Fault, g: Fault, d: Fault)
      returns (r: Result<(), PolicyError>)
    requires Applicable(st.state, sandbox, id)
    modifies st
    ensures (st.View(), r) == ApproveResult(e, old(st.View()), sandbox, id, Some(text), f, g, d)
  {
    ghost var n := st.View();
    var changed := SetSandboxBasePolicy(st, e, sandbox, text, f, g);
    if changed.Err? {
      return Err(changed.error);
    }
    SetBaseTransaction(e, n, sandbox, text, f, g);
    assert id in st.state.proposals;
    var decided := st.DecideProposal(id, "approved", "", d);
    r := if decided.Ok? then Ok(()) else Err(DecisionFailed);
  }

  /** An approved proposal is left as it is and reported as success; one that is missing, of another sandbox, or whose
      sandbox is missing is refused without a change. */
  method ApproveProposal(st: Store, e: Engine, sandbox: string, id: string, f: Fault, g: Fault, d: Fault)
      returns (r: Result<(), PolicyError>, ghost merged: Option<string>)
    modifies st
    ensures !Applicable(old(st.state), sandbox, id) ==>
      && st.View() == old(st.View())
      && r == if id !in st.state.proposals || st.state.proposals[id].sandbox != sandbox then Err(NoProposal)
              else if st.state.proposals[id].status == "approved" then Ok(()) else Err(NoSandbox)
    ensures Applicable(old(st.state), sandbox, id) ==>
      && MayMerge(e, MergeBase(e, old(st.state), sandbox), old(st.state).proposals[id].ruleName,
                  old(st.state).proposals[id].ruleYaml, merged)
      && (st.View(), r) == ApproveResult(e, old(st.View()), sandbox, id, merged, f, g, d)
  {
    merged := None;
    var p := st.GetProposal(id);
    if p.None? || p.value.sandbox != sandbox {
      return Err(NoProposal), merged;
    }
    if p.value.status == "approved" {
      return Ok(()), merged;
    }
    var sb := st.GetSandbox(sandbox);
    if sb.None? {
      return Err(NoSandbox), merged;
    }
    var base := sb.value.basePolicyYaml;
    if e.blank(base) {
      base := EMPTY_POLICY;
    }
    var text := MergeProposalYaml(e, base, p.value.ruleName, p.value.ruleYaml);
    merged := text;
    if text.None? {
      return Err(BadMerge), merged;
    }
    r := ApplyMerged(st, e, sandbox, id, text.value, f, g, d);
  }

  /** Base text, attached providers and every proposal are as before. */
  ghost predicate NothingChanged(st: State, after: State, sandbox: string)
    requires sandbox in st.sandboxes
  {
    && sandbox in after.sandboxes && after.proposals == st.proposals
    && after.sandboxes[sandbox].basePolicyYaml == st.sandboxes[sandbox].basePolicyYaml
    && after.sandboxes[sandbox].attachedProviders == st.sandboxes[sandbox].attachedProviders
  }

  /** The prepared text is stored as one new revision, providers are kept, and this proposal alone is now approved. */
  ghost predicate Approved(e: Engine, st: State, after: State, sandbox: string, id: string, merged: string)
    requires sandbox in st.sandboxes && id in st.proposals
  {
    && sandbox in after.sandboxes && Prepared(e, st, sandbox, merged).Ok?
    && after.sandboxes[sandbox].basePolicyYaml == Prepared(e, st, sandbox, merged).value.0
    && after.sandboxes[sandbox].attachedProviders == st.sandboxes[sandbox].attachedProviders
    && after.sandboxes[sandbox].policyRev == st.sandboxes[sandbox].policyRev + 1
    && after.proposals == st.proposals[id := st.proposals[id].(status := "approved", rejectionReason := "")]
  }

  /**
   What an approval merges: the proposal's rules over the stored base, or over the empty policy if that base is blank.
   Rules of the base that the proposal does not write are kept.
   */
  lemma ApprovalOverlaysBase(e: Engine, st: State, sandbox: string, id: string, text: string)
      returns (doc: Document, frag: map<string, Rule>, out: Document)
    requires Applicable(st, sandbox, id)
    requires MayMerge(e, MergeBase(e, st, sandbox), st.proposals[id].ruleName, st.proposals[id].ruleYaml, Some(text))
    ensures var base := st.sandboxes[sandbox].basePolicyYaml;
            e.parse(if e.blank(base) then "version: 1\nnetwork_policies: {}\n" else base) == Some(doc)
    ensures e.parseRules(st.proposals[id].ruleYaml) == Some(frag)
    ensures Overlaid(doc, frag, st.proposals[id].ruleName, out) && e.valid(out) && e.marshal(out) == Some(text)
  {
    var p := st.proposals[id];
    doc, frag, out := MergeOverlays(e, MergeBase(e, st, sandbox), p.ruleName, p.ruleYaml, text);
  }

  /** An approval goes through exactly when the merged policy is storable, both flushes succeed and the effective policy
      composes with it in place. */
  lemma ApprovedIff(e: Engine, n: Node, sandbox: string, id: string, merged: Option<string>,
                    f: Fault, g: Fault, d: Fault)
    requires Applicable(n.mem, sandbox, id)
    ensures var r := ApproveResult(e, n, sandbox, id, merged, f, g, d).1;
            && (r == Err(BadMerge) <==> merged.None?)
            && (r.Ok? <==>
                  && merged.Some? && f.NoFault? && d.NoFault?
                  && exists text, stripped: nat, yaml ::
                       Storable(e, merged.value, text, stripped)
                       && Effective(e, Apply(n.mem, SetBase(sandbox, text)), sandbox, yaml))
  {
    if merged.Some? {
      RefusedIff(e, n, sandbox, merged.value, f, g);
      if text, stripped: nat :| Storable(e, merged.value, text, stripped) {
        AnsweredWhen(e, n, sandbox, merged.value, text, stripped, f, g);
        PreparedMeans(e, n.mem, sandbox, merged.value, text, stripped);
      }
    }
  }

  /**
   End to end, with a library that reads back what it writes: after a successful approval the base parses to the overlay
   of the proposal over the previous base, without provider rules.
   */
  lemma ApprovedBaseIsOverlay(e: Engine, n: Node, sandbox: string, id: string, merged: Option<string>,
                              f: Fault, g: Fault, d: Fault)
      returns (doc: Document, frag: map<string, Rule>, out: Document)
    requires Applicable(n.mem, sandbox, id) && Faithful(e) && ApproveResult(e, n, sandbox, id, merged, f, g, d).1.Ok?
    requires var p := n.mem.proposals[id]; MayMerge(e, MergeBase(e, n.mem, sandbox), p.ruleName, p.ruleYaml, merged)
    ensures var base := n.mem.sandboxes[sandbox].basePolicyYaml;
            e.parse(if e.blank(base) then "version: 1\nnetwork_policies: {}\n" else base) == Some(doc)
    ensures e.parseRules(n.mem.proposals[id].ruleYaml) == Some(frag)
    ensures Overlaid(doc, frag, n.mem.proposals[id].ruleName, out)
    ensures var m := ApproveResult(e, n, sandbox, id, merged, f, g, d).0;
            sandbox in m.mem.sandboxes && e.parse(m.mem.sandboxes[sandbox].basePolicyYaml) == Some(e.omit(out).0)
  {
    doc, frag, out := ApprovalOverlaysBase(e, n.mem, sandbox, id, merged.value);
    StoredBaseIsClean(e, n, sandbox, merged.value, f, g);
  }

  /** With no disk failure an approval is all or nothing, and a failed one costs 0 or exactly 2 revisions:
      2 exactly when the effective policy could not be composed. */
  lemma ApprovalIsTransactional(e: Engine, n: Node, sandbox: string, id: string, merged: Option<string>)
    requires Applicable(n.mem, sandbox, id)
    ensures var (m, r) := ApproveResult(e, n, sandbox, id, merged, NoFault, NoFault, NoFault);
            && (r.Ok? ==> merged.Some? && Approved(e, n.mem, m.mem, sandbox, id, merged.value))
            && (r.Err? ==>
                  && NothingChanged(n.mem, m.mem, sandbox)
                  && m.mem.sandboxes[sandbox].policyRev ==
                       n.mem.sandboxes[sandbox].policyRev + if r.error.NotComposable? then 2 else 0)
  {
    if merged.Some? {
      SetBaseTransaction(e, n, sandbox, merged.value, NoFault, NoFault);
    }
  }

  /** The effective policy composes once the text prepared from `merged` is stored. */
  predicate Composes(e: Engine, n: Node, sandbox: string, merged: string)
    requires Prepared(e, n.mem, sandbox, merged).Ok?
  {
    var text := Prepared(e, n.mem, sandbox, merged).value.0;
    Composed(e, Call(n, SetBase(sandbox, text), NoFault).mem, sandbox).Some?
  }

  /** Under disk failures a failed approval leaves base, providers and proposals in memory alone exactly when neither
      the flush of a changed base text nor the flush of the decision was what failed. */
  lemma FailedApprovalKeepsAllIff(e: Engine, n: Node, sandbox: string, id: string, merged: Option<string>,
                                  f: Fault, g: Fault, d: Fault)
    requires Applicable(n.mem, sandbox, id) && ApproveResult(e, n, sandbox, id, merged, f, g, d).1.Err?
    ensures var m := ApproveResult(e, n, sandbox, id, merged, f, g, d).0;
            NothingChanged(n.mem, m.mem, sandbox) <==>
              || merged.None? || Prepared(e, n.mem, sandbox, merged.value).Err?
              || (if f.NoFault? then !Composes(e, n, sandbox, merged.value)
                  else Prepared(e, n.mem, sandbox, merged.value).value.0 == n.mem.sandboxes[sandbox].basePolicyYaml)
  {
    if merged.Some? {
      SetBaseTransaction(e, n, sandbox, merged.value, f, g);
      FailureKeepsBaseIff(e, n, sandbox, merged.value, f, g);
    }
  }

  /**
   What a restart finds after a failed approval. state.json is untouched unless the new base reached it. If it did, the
   proposals there are the previous ones, and the file has the previous base exactly when the text is the same or a
   compose failure was rolled back with a successful flush.
   */
  lemma FailedApprovalOnDisk(e: Engine, n: Node, sandbox: string, id: string, merged: Option<string>,
                             f: Fault, g: Fault, d: Fault)
    requires Applicable(n.mem, sandbox, id) && ApproveResult(e, n, sandbox, id, merged, f, g, d).1.Err?
    ensures var m := ApproveResult(e, n, sandbox, id, merged, f, g, d).0;
            if merged.None? || Prepared(e, n.mem, sandbox, merged.value).Err? || !f.NoFault? then m.main == n.main
            else
              && m.main.Some? && m.main.value.Json? && m.main.value.state.proposals == n.mem.proposals
              && (NothingChanged(n.mem, m.main.value.state, sandbox) <==>
                    || Prepared(e, n.mem, sandbox, merged.value).value.0 == n.mem.sandboxes[sandbox].basePolicyYaml
                    || (!Composes(e, n, sandbox, merged.value) && g.NoFault?))
  {
    if merged.Some? && Prepared(e, n.mem, sandbox, merged.value).Ok? {
      var text := Prepared(e, n.mem, sandbox, merged.value).value.0;
      var stored := Call(n, SetBase(sandbox, text), f);
      SetBaseChangesOnlyBase(n, sandbox, text, f);
      SetBaseChangesOnlyBase(stored, sandbox, n.mem.sandboxes[sandbox].basePolicyYaml, g);
    }
  }

  /** The flush of the decision fails: the caller gets an error, memory has the new base and the approval, and
      state.json the new base with the proposal still pending. */
  lemma FailedDecisionLeavesHalf()
    ensures var p := Proposal("p", "a", "pending", "", "", "");
            var (m, r) := ApproveResult(PlainEngine(true), SampleNode("old", map["p" := p]), "a", "p", Some("new"),
                                        NoFault, NoFault, RenameFault);
            && r == Err(DecisionFailed)
            && BaseOf(m.mem, "a") == Some("new") && m.mem.proposals == map["p" := p.(status := "approved")]
            && BaseOf(Loaded(m.main), "a") == Some("new") && Loaded(m.main).proposals == map["p" := p]
  {
    var e, n := PlainEngine(true), SampleNode("old", map["p" := Proposal("p", "a", "pending", "", "", "")]);
    assert Prepared(e, n.mem, "a", "new") == Ok(("new", 0));
  }
}
