/**
 The gateway registry state (internal/storage/store) and what each store call
 does to it, as functions. The Store class implements these functions in place;
 traces, crash safety and the policy history are proved about them.
 */
module StoreState {
  import opened Options
  import opened Sequences

  /** SHA-256 as an ideal hash: different secrets have different digests. */
  datatype Digest = Digest(preimage: string)

  function HashToken(tok: string): Digest { Digest(tok) }

  datatype SandboxToken = SandboxToken(hash: Digest, issuedAtMs: int)

  /** expiresAtMs == 0 means no expiry. */
  datatype SshSession = SshSession(
    id: string, sandbox: string, tokenHash: Digest, subject: string,
    createdAtMs: int, expiresAtMs: int, revoked: bool)

  datatype PolicyRevision = PolicyRevision(rev: int, bytes: nat, status: string, yaml: string)

  /** `details` stands for the fields no operation here looks at (id, image, network, status, labels). */
  datatype Sandbox = Sandbox(
    name: string, details: map<string, string>, basePolicyYaml: string, attachedProviders: seq<string>,
    policyRev: int, policyRevisions: seq<PolicyRevision>)

  datatype Proposal = Proposal(
    id: string, sandbox: string, status: string, ruleName: string, ruleYaml: string, rejectionReason: string)

  datatype State = State(
    sandboxes: map<string, Sandbox>,
    tokens: map<string, SandboxToken>,
    sessions: map<string, SshSession>,
    proposals: map<string, Proposal>,
    globalPolicyYaml: string)

  const EMPTY_STATE := State(map[], map[], map[], map[], "")

  const MAX_POLICY_REVISIONS := 32
  const NS_PER_MS := 1_000_000

  /** time.Time.UnixMilli of an instant in nanoseconds. */
  function UnixMilli(ns: int): int { ns / NS_PER_MS }

  /** One mutating store call with the random values and clock readings it drew. */
  datatype Op =
    | Upsert(sb: Sandbox)
    | Delete(name: string)
    | SetBase(name: string, yaml: string)
    | Attach(name: string, provider: string)
    | Detach(name: string, provider: string)
    | Issue(name: string, tok: string, nowNs: int)
    | CreateSession(id: string, sandbox: string, tok: string, subject: string, nowNs: int, ttlNs: int)
    | Revoke(id: string)
    | Reap(nowNs: int)
    | PutProposal(p: Proposal)
    | Decide(id: string, status: string, reason: string)
    | SetGlobal(yaml: string)

  // --- Pieces of the calls ---

  /** UpsertSandbox keeps what the previous record had and the new one leaves empty. */
  function MergedWith(prev: Sandbox, sb: Sandbox): Sandbox {
    sb.(attachedProviders := if sb.attachedProviders == [] then prev.attachedProviders else sb.attachedProviders,
        basePolicyYaml := if sb.basePolicyYaml == "" then prev.basePolicyYaml else sb.basePolicyYaml,
        policyRev := if sb.policyRev == 0 && prev.policyRev > 0 then prev.policyRev else sb.policyRev,
        policyRevisions := if sb.policyRevisions == [] then prev.policyRevisions else sb.policyRevisions)
  }

  function Merged(st: State, sb: Sandbox): Sandbox {
    if sb.name in st.sandboxes then MergedWith(st.sandboxes[sb.name], sb) else sb
  }

  function WithBase(sb: Sandbox, yaml: string): Sandbox {
    var rev := sb.policyRev + 1;
    sb.(basePolicyYaml := yaml,
        policyRev := rev,
        policyRevisions := Last(sb.policyRevisions + [PolicyRevision(rev, |yaml|, "loaded", yaml)],
                                MAX_POLICY_REVISIONS))
  }

  function NewSession(id: string, sandbox: string, tok: string, subject: string, nowNs: int, ttlNs: int): SshSession {
    SshSession(id, sandbox, HashToken(tok), subject, UnixMilli(nowNs),
               if ttlNs > 0 then UnixMilli(nowNs + ttlNs) else 0, false)
  }

  predicate Expired(sess: SshSession, nowNs: int) {
    sess.expiresAtMs > 0 && UnixMilli(nowNs) >= sess.expiresAtMs
  }

  predicate Reapable(sess: SshSession, nowNs: int) {
    sess.revoked || Expired(sess, nowNs)
  }

  function SessionsAfterReap(sessions: map<string, SshSession>, nowNs: int): map<string, SshSession> {
    map id | id in sessions && !Reapable(sessions[id], nowNs) :: sessions[id]
  }

  function SessionsWithout(sessions: map<string, SshSession>, sandbox: string): map<string, SshSession> {
    map id | id in sessions && sessions[id].sandbox != sandbox :: sessions[id]
  }

  // --- The calls ---

  /** The call gets past its checks and ends in a flush. Otherwise it returns without touching the state. */
  predicate Flushes(st: State, op: Op) {
    match op
    case Upsert(_) => true
    case Delete(_) => true
    case SetBase(name, _) => name in st.sandboxes
    case Attach(name, provider) => name in st.sandboxes && provider !in st.sandboxes[name].attachedProviders
    case Detach(name, _) => name in st.sandboxes
    case Issue(name, _, _) => name in st.sandboxes
    case CreateSession(_, sandbox, _, _, _, _) => sandbox in st.sandboxes
    case Revoke(id) => id in st.sessions
    case Reap(nowNs) => exists id | id in st.sessions :: Reapable(st.sessions[id], nowNs)
    case PutProposal(p) => p.id != "" && p.sandbox != ""
    case Decide(id, status, _) => id in st.proposals && (status == "approved" || status == "rejected")
    case SetGlobal(_) => true
  }

  /** The in-memory state after the call; it stays even if the flush then fails. */
  function Apply(st: State, op: Op): State {
    if !Flushes(st, op) then st else
    match op
    case Upsert(sb) => st.(sandboxes := st.sandboxes[sb.name := Merged(st, sb)])
    case Delete(name) =>
      st.(sandboxes := st.sandboxes - {name}, tokens := st.tokens - {name},
          sessions := SessionsWithout(st.sessions, name))
    case SetBase(name, yaml) => st.(sandboxes := st.sandboxes[name := WithBase(st.sandboxes[name], yaml)])
    case Attach(name, provider) =>
      var sb := st.sandboxes[name];
      st.(sandboxes := st.sandboxes[name := sb.(attachedProviders := sb.attachedProviders + [provider])])
    case Detach(name, provider) =>
      var sb := st.sandboxes[name];
      st.(sandboxes := st.sandboxes[name := sb.(attachedProviders := Without(sb.attachedProviders, provider))])
    case Issue(name, tok, nowNs) =>
      st.(tokens := st.tokens[name := SandboxToken(HashToken(tok), UnixMilli(nowNs))])
    case CreateSession(id, sandbox, tok, subject, nowNs, ttlNs) =>
      st.(sessions := st.sessions[id := NewSession(id, sandbox, tok, subject, nowNs, ttlNs)])
    case Revoke(id) => st.(sessions := st.sessions[id := st.sessions[id].(revoked := true)])
    case Reap(nowNs) => st.(sessions := SessionsAfterReap(st.sessions, nowNs))
    case PutProposal(p) =>
      st.(proposals := st.proposals[p.id := if p.status == "" then p.(status := "pending") else p])
    case Decide(id, status, reason) =>
      st.(proposals := st.proposals[id := st.proposals[id].(status := status, rejectionReason := reason)])
    case SetGlobal(yaml) => st.(globalPolicyYaml := yaml)
  }

  /** The state after a sequence of calls on an empty store. */
  function After(ops: seq<Op>): State {
    if ops == [] then EMPTY_STATE else Apply(After(ops[..|ops| - 1]), ops[|ops| - 1])
  }

  // --- Answers of the reading calls ---

  datatype SessionError = SessionNotFound | SessionRevoked | SessionExpired | WrongSandbox

  type Verdict = Result<SshSession, SessionError>

  /** The switch of ValidateSSHSession on a session whose digest matches. */
  function Judge(st: State, sess: SshSession, sandbox: string, nowNs: int): Verdict {
    if sess.revoked then Err(SessionRevoked)
    else if Expired(sess, nowNs) then Err(SessionExpired)
    else if sess.sandbox != sandbox then Err(WrongSandbox)
    else if sess.sandbox !in st.sandboxes then Err(SessionNotFound)
    else Ok(sess)
  }

  predicate SessionMatches(st: State, id: string, tok: string) {
    id in st.sessions && st.sessions[id].tokenHash == HashToken(tok)
  }

  /** v is an answer ValidateSSHSession can give for some order of iterating over the session map. */
  ghost predicate MayAnswer(st: State, tok: string, sandbox: string, nowNs: int, v: Verdict) {
    if tok == "" || (forall id :: !SessionMatches(st, id, tok)) then v == Err(SessionNotFound)
    else exists id :: SessionMatches(st, id, tok) && v == Judge(st, st.sessions[id], sandbox, nowNs)
  }

  predicate TokenMatches(st: State, name: string, tok: string) {
    name in st.tokens && st.tokens[name].hash == HashToken(tok)
  }

  /** r is an answer SandboxForToken can give for some order of iterating over the token map. */
  ghost predicate MayResolve(st: State, tok: string, r: Option<string>) {
    if tok == "" || (forall name :: !TokenMatches(st, name, tok)) then r == None
    else exists name :: TokenMatches(st, name, tok) && r == (if name in st.sandboxes then Some(name) else None)
  }

  // --- The state file ---

  datatype Content = Json(state: State) | Garbled

  /** A running store: its memory, state.json and state.json.tmp. */
  datatype Node = Node(mem: State, main: Option<Content>, tmp: Option<Content>)

  /** The point at which a flush fails; a failed write may leave anything in the temporary file. */
  datatype Fault = NoFault | MarshalFault | WriteFault(left: Option<Content>) | ChmodFault | RenameFault

  function Written(n: Node): Node { n.(tmp := Some(Json(n.mem))) }

  function Renamed(n: Node): Node { n.(main := n.tmp, tmp := None) }

  /** flushLocked: write the temporary file, then rename it over state.json. */
  function Flush(n: Node, f: Fault): Node {
    match f
    case NoFault => Renamed(Written(n))
    case MarshalFault => n
    case WriteFault(left) => n.(tmp := left)
    case ChmodFault => Written(n)
    case RenameFault => Written(n)
  }

  /** What Open reads from state.json: its contents, or the empty state if there is no file. */
  function Loaded(main: Option<Content>): State {
    if main.Some? && main.value.Json? then main.value.state else EMPTY_STATE
  }

  /** A whole store call under a flush fault. */
  function Call(n: Node, op: Op, f: Fault): Node {
    var m := n.(mem := Apply(n.mem, op));
    if Flushes(n.mem, op) then Flush(m, f) else m
  }
}
