/**
 Changing a sandbox's base policy with rollback (internal/httpapi/providers.go)
 and approving a proposal (internal/httpapi/proposals.go), on top of the store.
 */
module PolicyUpdate {
  import opened Options
  import opened StoreState
  import opened Store

  /** One network policy; `body` stands for everything but its name. */
  datatype Rule = Rule(name: string, body: string)

  /** A parsed policy; `rest` stands for everything but its network policies. */
  datatype Document = Document(rest: string, rules: map<string, Rule>)

  /** The policy library: parsing, validation, composition and YAML output are taken as given functions. */
  datatype Engine = Engine(
    blank: string -> bool,
    parse: string -> Option<Document>,
    parseRules: string -> Option<map<string, Rule>>,
    omit: Document -> (Document, nat),
    valid: Document -> bool,
    marshal: Document -> Option<string>,
    effective: (State, string) -> Option<Document>)

  datatype PolicyError = NoSandbox | NoProposal | BadPolicy | BadMerge | StoreFailed | NotComposable | DecisionFailed

  // --- setSandboxBasePolicy ---

  /** The text setSandboxBasePolicy will store and how many provider rules it stripped, or why it stops before that. */
  function Prepared(e: Engine, st: State, name: string, body: string): Result<(string, nat), PolicyError> {
    if name !in st.sandboxes then Err(NoSandbox)
    else match e.parse(body)
      case None => Err(BadPolicy)
      case Some(doc) =>
        var (clean, stripped) := e.omit(doc);
        if !e.valid(clean) then Err(BadPolicy)
        else if stripped == 0 then Ok((body, 0))
        else match e.marshal(clean)
          case None => Err(BadPolicy)
          case Some(text) => Ok((text, stripped))
  }

  /** The effective policy of a state, as YAML; None if composing, validating or writing it fails. */
  function Composed(e: Engine, st: State, name: string): Option<string> {
    match e.effective(st, name)
    case None => None
    case Some(doc) => e.marshal(doc)
  }

  /** The store after setSandboxBasePolicy and its answer; f and g are the faults of its two possible flushes. */
  function SetBaseResult(e: Engine, n: Node, name: string, body: string, f: Fault, g: Fault)
    : (Node, Result<(string, nat), PolicyError>)
  {
    match Prepared(e, n.mem, name, body)
    case Err(error) => (n, Err(error))
    case Ok((text, stripped)) =>
      var stored := Call(n, SetBase(name, text), f);
      if !f.NoFault? then (stored, Err(StoreFailed))
      else match Composed(e, stored.mem, name)
        case None => (Call(stored, SetBase(name, n.mem.sandboxes[name].basePolicyYaml), g), Err(NotComposable))
        case Some(yaml) => (stored, Ok((yaml, stripped)))
  }

  method SetSandboxBasePolicy(st: Store, e: Engine, name: string, body: string, f: Fault, g: Fault)
      returns (r: Result<(string, nat), PolicyError>)
    modifies st
    ensures (st.View(), r) == SetBaseResult(e, old(st.View()), name, body, f, g)
  {
    var sb := st.GetSandbox(name);
    if sb.None? {
      return Err(NoSandbox);
    }
    var parsed := e.parse(body);
    if parsed.None? {
      return Err(BadPolicy);
    }
    var (doc, stripped) := e.omit(parsed.value);
    if !e.valid(doc) {
      return Err(BadPolicy);
    }
    var text := body;
    if stripped > 0 {
      var out := e.marshal(doc);
      if out.None? {
        return Err(BadPolicy);
      }
      text := out.value;
    }
    var prevBase := sb.value.basePolicyYaml;
    var stored := st.SetBasePolicy(name, text, f);
    if stored.Err? {
      return Err(StoreFailed);
    }
    var effective := e.effective(st.state, name);
    if effective.None? {
      var _ := st.SetBasePolicy(name, prevBase, g);
      return Err(NotComposable);
    }
    var yaml := e.marshal(effective.value);
    if yaml.None? {
      var _ := st.SetBasePolicy(name, prevBase, g);
      return Err(NotComposable);
    }
    return Ok((yaml.value, stripped));
  }

  /** Everything but the base text and revisions of one sandbox is as before. */
  ghost predicate OnlyBaseChanged(st: State, after: State, name: string)
    requires name in st.sandboxes
  {
    && name in after.sandboxes
    && after == st.(sandboxes := st.sandboxes[name := after.sandboxes[name]])
    && after.sandboxes[name] == st.sandboxes[name].(
         basePolicyYaml := after.sandboxes[name].basePolicyYaml, policyRev := after.sandboxes[name].policyRev,
         policyRevisions := after.sandboxes[name].policyRevisions)
  }

  lemma SetBaseChangesOnlyBase(n: Node, name: string, yaml: string, f: Fault)
    requires name in n.mem.sandboxes
    ensures var m := Call(n, SetBase(name, yaml), f);
            && OnlyBaseChanged(n.mem, m.mem, name)
            && m.mem.sandboxes[name].basePolicyYaml == yaml
            && m.mem.sandboxes[name].policyRev == n.mem.sandboxes[name].policyRev + 1
            && (f.NoFault? ==> m.main == Some(Json(m.mem)))
            && (!f.NoFault? ==> m.main == n.main)
  {
  }

  /**
   What the caller of setSandboxBasePolicy may rely on. Attached providers and all other records are never touched.
   Success stores the prepared text as one new revision; a compose failure restores the old text and costs two
   revisions; a failure before storing changes nothing.
   */
  lemma SetBaseTransaction(e: Engine, n: Node, name: string, body: string, f: Fault, g: Fault)
    requires name in n.mem.sandboxes
    ensures var (m, r) := SetBaseResult(e, n, name, body, f, g);
            && OnlyBaseChanged(n.mem, m.mem, name)
            && var old', new' := n.mem.sandboxes[name], m.mem.sandboxes[name];
            && (r.Ok? ==>
                  && Prepared(e, n.mem, name, body) == Ok((new'.basePolicyYaml, r.value.1))
                  && new'.policyRev == old'.policyRev + 1 && Effective(e, m.mem, name, r.value.0))
            && (r == Err(NotComposable) ==>
                  new'.basePolicyYaml == old'.basePolicyYaml && new'.policyRev == old'.policyRev + 2)
            && (r.Err? && Prepared(e, n.mem, name, body).Err? ==> m == n)
  {
    if Prepared(e, n.mem, name, body).Ok? {
      var text := Prepared(e, n.mem, name, body).value.0;
      SetBaseChangesOnlyBase(n, name, text, f);
      SetBaseChangesOnlyBase(Call(n, SetBase(name, text), f), name, n.mem.sandboxes[name].basePolicyYaml, g);
    }
  }

  /**
   A failed change keeps the previous base in memory exactly when the failure is not the flush of a different text: that
   failure is reported without a rollback, and the new text stays.
   */
  lemma FailureKeepsBaseIff(e: Engine, n: Node, name: string, body: string, f: Fault, g: Fault)
    requires name in n.mem.sandboxes
    ensures var (m, r) := SetBaseResult(e, n, name, body, f, g);
            var base := n.mem.sandboxes[name].basePolicyYaml;
            r.Err? ==>
              (m.mem.sandboxes[name].basePolicyYaml == base <==>
                 Prepared(e, n.mem, name, body).Err? || f.NoFault? || Prepared(e, n.mem, name, body).value.0 == base)
  {
    SetBaseTransaction(e, n, name, body, f, g);
    if Prepared(e, n.mem, name, body).Ok? {
      SetBaseChangesOnlyBase(n, name, Prepared(e, n.mem, name, body).value.0, f);
    }
  }

  /** After a compose failure, state.json holds the previous base exactly when the rollback's own flush succeeded. */
  lemma RollbackOnDiskIff(e: Engine, n: Node, name: string, body: string, f: Fault, g: Fault)
    requires name in n.mem.sandboxes && SetBaseResult(e, n, name, body, f, g).1 == Err(NotComposable)
    ensures var m := SetBaseResult(e, n, name, body, f, g).0;
            && m.main.Some? && m.main.value.Json? && name in m.main.value.state.sandboxes
            && (m.main.value.state.sandboxes[name].basePolicyYaml == n.mem.sandboxes[name].basePolicyYaml <==>
                  g.NoFault? || Prepared(e, n.mem, name, body).value.0 == n.mem.sandboxes[name].basePolicyYaml)
  {
    var text := Prepared(e, n.mem, name, body).value.0;
    SetBaseChangesOnlyBase(n, name, text, f);
    SetBaseChangesOnlyBase(Call(n, SetBase(name, text), f), name, n.mem.sandboxes[name].basePolicyYaml, g);
  }

  // --- The answers, in terms of the policy library ---

  /** The submitted policy parses, is valid without its provider rules, and is stored as `text`: as submitted if nothing
      was stripped, else written anew. */
  predicate Storable(e: Engine, body: string, text: string, stripped: nat) {
    && e.parse(body).Some?
    && var (clean, count) := e.omit(e.parse(body).value);
       && count == stripped && e.valid(clean)
       && if count == 0 then text == body else e.marshal(clean) == Some(text)
  }

  /** `yaml` is the effective policy the library composes for the sandbox. */
  predicate Effective(e: Engine, st: State, name: string, yaml: string) {
    e.effective(st, name).Some? && e.marshal(e.effective(st, name).value) == Some(yaml)
  }

  lemma PreparedMeans(e: Engine, st: State, name: string, body: string, text: string, stripped: nat)
    ensures Prepared(e, st, name, body) == Ok((text, stripped)) <==>
              name in st.sandboxes && Storable(e, body, text, stripped)
  {
  }

  /** Without the sandbox, or with a policy that cannot be stored, the change is refused and nothing happens. */
  lemma RefusedIff(e: Engine, n: Node, name: string, body: string, f: Fault, g: Fault)
    ensures var (m, r) := SetBaseResult(e, n, name, body, f, g);
            && (r == Err(NoSandbox) <==> name !in n.mem.sandboxes)
            && (r == Err(BadPolicy) <==>
                  name in n.mem.sandboxes && forall text, stripped: nat :: !Storable(e, body, text, stripped))
            && (r == Err(NoSandbox) || r == Err(BadPolicy) ==> m == n)
  {
    var prepared := Prepared(e, n.mem, name, body);
    forall text, stripped: nat
      ensures prepared == Ok((text, stripped)) <==> name in n.mem.sandboxes && Storable(e, body, text, stripped)
    {
      PreparedMeans(e, n.mem, name, body, text, stripped);
    }
    if prepared.Ok? {
      assert Storable(e, body, prepared.value.0, prepared.value.1);
    }
  }

  /** A storable policy goes through exactly when its flush succeeds and the effective policy composes with it in place;
      the caller then gets that effective policy and the number of stripped rules. */
  lemma AnsweredWhen(e: Engine, n: Node, name: string, body: string, text: string, stripped: nat, f: Fault, g: Fault)
    requires name in n.mem.sandboxes && Storable(e, body, text, stripped)
    ensures var (m, r) := SetBaseResult(e, n, name, body, f, g);
            var st := Apply(n.mem, SetBase(name, text));
            && (r == Err(StoreFailed) <==> !f.NoFault?)
            && (r == Err(NotComposable) <==> f.NoFault? && forall yaml :: !Effective(e, st, name, yaml))
            && (forall yaml :: r == Ok((yaml, stripped)) <==> f.NoFault? && Effective(e, st, name, yaml))
            && (r.Ok? ==> m.mem == st && r.value.1 == stripped)
  {
    PreparedMeans(e, n.mem, name, body, text, stripped);
    var st := Apply(n.mem, SetBase(name, text));
    if Composed(e, st, name).Some? {
      assert Effective(e, st, name, Composed(e, st, name).value);
    }
  }

  /** Writing a policy and parsing it again gives it back, and stripping nothing changes nothing. */
  ghost predicate Faithful(e: Engine) {
    && (forall doc :: e.marshal(doc).Some? ==> e.parse(e.marshal(doc).value) == Some(doc))
    && (forall doc :: e.omit(doc).1 == 0 ==> e.omit(doc).0 == doc)
  }

  /** With such a library the base stored by a successful change parses to the submitted policy without its provider
      rules, and that is a valid one. */
  lemma StoredBaseIsClean(e: Engine, n: Node, name: string, body: string, f: Fault, g: Fault)
    requires name in n.mem.sandboxes && Faithful(e) && SetBaseResult(e, n, name, body, f, g).1.Ok?
    ensures var m := SetBaseResult(e, n, name, body, f, g).0;
            && name in m.mem.sandboxes && e.parse(body).Some?
            && var clean := e.omit(e.parse(body).value).0;
               e.parse(m.mem.sandboxes[name].basePolicyYaml) == Some(clean) && e.valid(clean)
  {
    var (text, stripped) := Prepared(e, n.mem, name, body).value;
    PreparedMeans(e, n.mem, name, body, text, stripped);
    SetBaseTransaction(e, n, name, body, f, g);
  }

  // --- Failing inputs ---

  /** A policy library under which every text is a valid policy that is stored as it is. */
  function PlainEngine(composable: bool): Engine {
    Engine(text => text == "", text => Some(Document(text, map[])), _ => Some(map[]), doc => (doc, 0), _ => true,
           (doc: Document) => Some(doc.rest), (_, _) => if composable then Some(Document("", map[])) else None)
  }

  /** A flushed store with sandbox "a" on the given base. */
  function SampleNode(base: string, proposals: map<string, Proposal>): Node {
    var st := State(map["a" := Sandbox("a", map[], base, [], 0, [])], map[], map[], proposals, "");
    Node(st, Some(Json(st)), None)
  }

  function BaseOf(st: State, name: string): Option<string> {
    if name in st.sandboxes then Some(st.sandboxes[name].basePolicyYaml) else None
  }

  /** The flush of the new text fails: the caller gets an error, and the new text is in force in memory. */
  lemma FailedFlushKeepsNewText()
    ensures var (m, r) := SetBaseResult(PlainEngine(true), SampleNode("old", map[]), "a", "new", ChmodFault, NoFault);
            r == Err(StoreFailed) && BaseOf(m.mem, "a") == Some("new")
  {
    var e, n := PlainEngine(true), SampleNode("old", map[]);
    assert Prepared(e, n.mem, "a", "new") == Ok(("new", 0));
  }

  /** The effective policy cannot be composed and the flush of the rollback fails: a restart loads the rejected one. */
  lemma FailedRollbackKeepsRejectedText()
    ensures var (m, r) := SetBaseResult(PlainEngine(false), SampleNode("old", map[]), "a", "new", NoFault, RenameFault);
            r == Err(NotComposable) && BaseOf(m.mem, "a") == Some("old") && BaseOf(Loaded(m.main), "a") == Some("new")
  {
    var e, n := PlainEngine(false), SampleNode("old", map[]);
    assert Prepared(e, n.mem, "a", "new") == Ok(("new", 0));
  }

  // --- mergeProposalYAML ---

  /** rules is a result of writing the proposal's rules over the base ones, for some iteration order. */
  ghost predicate MayOverlay(base: map<string, Rule>, frag: map<string, Rule>, ruleName: string,
                             rules: map<string, Rule>)
  {
    if ruleName == "" then rules == base + frag
    else if frag == map[] then rules == base
    else exists k :: k in frag && rules == base[ruleName := frag[k].(name := ruleName)]
  }

  method OverlayRules(base: map<string, Rule>, frag: map<string, Rule>, ruleName: string)
      returns (rules: map<string, Rule>)
    ensures MayOverlay(base, frag, ruleName, rules)
  {
    rules := base;
    var todo := frag.Keys;
    while todo != {}
      invariant todo <= frag.Keys
      invariant ruleName == "" ==> rules.Keys == base.Keys + (frag.Keys - todo)
      invariant ruleName == "" ==>
                  forall k | k in rules :: rules[k] == if k in frag && k !in todo then frag[k] else base[k]
      invariant ruleName != "" && todo == frag.Keys ==> rules == base
      invariant ruleName != "" && todo != frag.Keys ==>
                  exists k :: k in frag && rules == base[ruleName := frag[k].(name := ruleName)]
      decreases todo
    {
      var k :| k in todo;
      var name, v := k, frag[k];
      if ruleName != "" {
        name := ruleName;
        v := v.(name := ruleName);
      }
      rules := rules[name := v];
      todo := todo - {k};
    }
  }

  /** The merged rules do not depend on the iteration order exactly when no rule name is given or the proposal's rules
      differ at most in their names. */
  lemma OverlayDeterministicIff(base: map<string, Rule>, frag: map<string, Rule>, ruleName: string)
    ensures (forall a, b | MayOverlay(base, frag, ruleName, a) && MayOverlay(base, frag, ruleName, b) :: a == b) <==>
              ruleName == "" || forall j, k | j in frag && k in frag :: frag[j].body == frag[k].body
  {
    if ruleName != "" {
      if j, k :| j in frag && k in frag && frag[j].body != frag[k].body {
        var a := base[ruleName := frag[j].(name := ruleName)];
        var b := base[ruleName := frag[k].(name := ruleName)];
        assert MayOverlay(base, frag, ruleName, a) && MayOverlay(base, frag, ruleName, b);
        assert a[ruleName] != b[ruleName];
      }
    }
  }

  /** Two different rules under one rule name: which of them is stored depends on the iteration order. */
  lemma OverlayDependsOnOrder()
    ensures var frag := map["x" := Rule("x", "allow"), "y" := Rule("y", "deny")];
            && MayOverlay(map[], frag, "r", map["r" := Rule("r", "allow")])
            && MayOverlay(map[], frag, "r", map["r" := Rule("r", "deny")])
  {
    var frag := map["x" := Rule("x", "allow"), "y" := Rule("y", "deny")];
    assert "x" in frag && frag["x"].(name := "r") == Rule("r", "allow");
    assert "y" in frag && frag["y"].(name := "r") == Rule("r", "deny");
  }

  /** out is a text mergeProposalYAML can produce; None if it can fail. */
  ghost predicate MayMerge(e: Engine, base: string, ruleName: string, ruleYaml: string, out: Option<string>) {
    match (e.parse(base), e.parseRules(ruleYaml))
    case (Some(doc), Some(frag)) =>
      exists rules :: MayOverlay(doc.rules, frag, ruleName, rules)
        && out == if e.valid(doc.(rules := rules)) then e.marshal(doc.(rules := rules)) else None
    case _ => out == None
  }

  method MergeProposalYaml(e: Engine, base: string, ruleName: string, ruleYaml: string) returns (out: Option<string>)
    ensures MayMerge(e, base, ruleName, ruleYaml, out)
  {
    var doc := e.parse(base);
    if doc.None? {
      return None;
    }
    var frag := e.parseRules(ruleYaml);
    if frag.None? {
      return None;
    }
    var rules := OverlayRules(doc.value.rules, frag.value, ruleName);
    var merged := doc.value.(rules := rules);
    return if e.valid(merged) then e.marshal(merged) else None;
  }

  /** The rule names a proposal writes. */
  function Writes(frag: map<string, Rule>, ruleName: string): set<string> {
    if frag == map[] then {} else if ruleName == "" then frag.Keys else {ruleName}
  }

  /** `out` is `doc` with the proposal's rules in place: every other rule and the rest of the policy are unchanged, each
      written rule is the proposal's, under the given name if there is one. */
  ghost predicate Overlaid(doc: Document, frag: map<string, Rule>, ruleName: string, out: Document) {
    && out.rest == doc.rest && out.rules.Keys == doc.rules.Keys + Writes(frag, ruleName)
    && (forall k | k in doc.rules && k !in Writes(frag, ruleName) :: out.rules[k] == doc.rules[k])
    && (ruleName == "" ==> forall k | k in frag :: out.rules[k] == frag[k])
    && (ruleName != "" && frag != map[] ==>
          exists k :: k in frag && out.rules[ruleName] == Rule(ruleName, frag[k].body))
  }

  /** A merged text is a valid overlay of the two parsed inputs, written out. */
  lemma MergeOverlays(e: Engine, base: string, ruleName: string, ruleYaml: string, text: string)
      returns (doc: Document, frag: map<string, Rule>, out: Document)
    requires MayMerge(e, base, ruleName, ruleYaml, Some(text))
    ensures e.parse(base) == Some(doc) && e.parseRules(ruleYaml) == Some(frag)
    ensures Overlaid(doc, frag, ruleName, out) && e.valid(out) && e.marshal(out) == Some(text)
  {
    doc, frag := e.parse(base).value, e.parseRules(ruleYaml).value;
    var rules :| MayOverlay(doc.rules, frag, ruleName, rules)
      && Some(text) == if e.valid(doc.(rules := rules)) then e.marshal(doc.(rules := rules)) else None;
    out := doc.(rules := rules);
  }

  /** A merge fails only because an input does not parse or an overlay is invalid or cannot be written. */
  lemma MergeFailure(e: Engine, base: string, ruleName: string, ruleYaml: string)
    requires MayMerge(e, base, ruleName, ruleYaml, None)
    ensures e.parse(base).None? || e.parseRules(ruleYaml).None? ||
              exists out :: Overlaid(e.parse(base).value, e.parseRules(ruleYaml).value, ruleName, out)
                            && (!e.valid(out) || e.marshal(out).None?)
  {
    if e.parse(base).Some? && e.parseRules(ruleYaml).Some? {
      var doc, frag := e.parse(base).value, e.parseRules(ruleYaml).value;
      var rules :| MayOverlay(doc.rules, frag, ruleName, rules)
        && None == if e.valid(doc.(rules := rules)) then e.marshal(doc.(rules := rules)) else None;
      assert Overlaid(doc, frag, ruleName, doc.(rules := rules));
    }
  }
}
