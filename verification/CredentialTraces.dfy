/** Which credentials a store accepts, in terms of the calls made on it. */
module CredentialTraces {
  import opened Options
  import opened StoreState

  lemma AfterStep(ops: seq<Op>, k: nat)
    requires k < |ops|
    ensures After(ops[..k + 1]) == Apply(After(ops[..k]), ops[k])
  {
    assert ops[..k + 1][..k] == ops[..k];
  }

  lemma AfterAll(ops: seq<Op>)
    ensures After(ops[..|ops|]) == After(ops)
  {
    assert ops[..|ops|] == ops;
  }

  // --- Registered sandboxes ---

  /** Before call k, some call registered the name and no later one deleted it. */
  ghost predicate Known(ops: seq<Op>, k: nat, name: string)
    requires k <= |ops|
  {
    exists i | 0 <= i < k :: RegisteredSince(ops, i, k, name)
  }

  ghost predicate RegisteredSince(ops: seq<Op>, i: nat, k: nat, name: string)
    requires i < k <= |ops|
  {
    ops[i].Upsert? && ops[i].sb.name == name && forall j | i < j < k :: ops[j] != Delete(name)
  }

  lemma KnownStep(ops: seq<Op>, k: nat, name: string)
    requires k < |ops|
    ensures Known(ops, k + 1, name) <==>
              (ops[k].Upsert? && ops[k].sb.name == name) || (Known(ops, k, name) && ops[k] != Delete(name))
  {
    if ops[k].Upsert? && ops[k].sb.name == name {
      assert RegisteredSince(ops, k, k + 1, name);
    } else if Known(ops, k, name) && ops[k] != Delete(name) {
      var i :| 0 <= i < k && RegisteredSince(ops, i, k, name);
      assert RegisteredSince(ops, i, k + 1, name);
    } else if Known(ops, k + 1, name) {
      var i :| 0 <= i < k + 1 && RegisteredSince(ops, i, k + 1, name);
      assert i < k ==> RegisteredSince(ops, i, k, name);
    }
  }

  lemma ApplyRegisters(st: State, op: Op, name: string)
    ensures name in Apply(st, op).sandboxes <==>
              (op.Upsert? && op.sb.name == name) || (name in st.sandboxes && op != Delete(name))
  {
  }

  /** A sandbox is registered exactly when an upsert of it has not been followed by its deletion. */
  lemma {:induction false} KnownIff(ops: seq<Op>, k: nat, name: string)
    requires k <= |ops|
    ensures name in After(ops[..k]).sandboxes <==> Known(ops, k, name)
  {
    if k > 0 {
      KnownIff(ops, k - 1, name);
      AfterStep(ops, k - 1);
      ApplyRegisters(After(ops[..k - 1]), ops[k - 1], name);
      KnownStep(ops, k - 1, name);
    }
  }

  // --- Referential integrity ---

  /** Every token and every session belongs to a registered sandbox. */
  ghost predicate Grounded(st: State) {
    && (forall name | name in st.tokens :: name in st.sandboxes)
    && (forall id | id in st.sessions :: st.sessions[id].sandbox in st.sandboxes)
  }

  lemma ApplyKeepsGrounded(st: State, op: Op)
    requires Grounded(st)
    ensures Grounded(Apply(st, op))
  {
  }

  lemma {:induction false} AfterGrounded(ops: seq<Op>)
    ensures Grounded(After(ops))
  {
    if ops != [] {
      AfterGrounded(ops[..|ops| - 1]);
      ApplyKeepsGrounded(After(ops[..|ops| - 1]), ops[|ops| - 1]);
    }
  }

  /** The missing-sandbox branches of both lookups are never taken on a store that began empty. */
  lemma MissingSandboxUnreachable(ops: seq<Op>, tok: string, name: string, id: string)
    ensures TokenMatches(After(ops), name, tok) ==> name in After(ops).sandboxes
    ensures SessionMatches(After(ops), id, tok) ==> After(ops).sessions[id].sandbox in After(ops).sandboxes
  {
    AfterGrounded(ops);
  }

  // --- SSH sessions ---

  /** Secrets and session ids are random: no two calls draw the same one, and none is empty. */
  ghost predicate FreshSecrets(ops: seq<Op>) {
    && (forall i | 0 <= i < |ops| && ops[i].CreateSession? :: ops[i].tok != "")
    && (forall i | 0 <= i < |ops| && ops[i].Issue? :: ops[i].tok != "")
    && (forall i, j | 0 <= i < j < |ops| && ops[i].CreateSession? && ops[j].CreateSession? ::
          ops[i].tok != ops[j].tok && ops[i].id != ops[j].id)
    && (forall i, j | 0 <= i < j < |ops| && ops[i].Issue? && ops[j].Issue? :: ops[i].tok != ops[j].tok)
  }

  /** Call i minted a session: its sandbox was registered at that point. */
  ghost predicate Minted(ops: seq<Op>, i: nat) {
    i < |ops| && ops[i].CreateSession? && Known(ops, i, ops[i].sandbox)
  }

  /** The session record a mint stands for, from the call's own values; times are in milliseconds. */
  function SessionOf(op: Op): SshSession
    requires op.CreateSession?
  {
    SshSession(op.id, op.sandbox, HashToken(op.tok), op.subject, op.nowNs / 1_000_000,
               if op.ttlNs > 0 then (op.nowNs + op.ttlNs) / 1_000_000 else 0, false)
  }

  /** A session with a lifetime lapses at its expiry, to the millisecond. */
  predicate Lapsed(op: Op, nowNs: int)
    requires op.CreateSession?
  {
    var expiry := (op.nowNs + op.ttlNs) / 1_000_000;
    op.ttlNs > 0 && expiry > 0 && nowNs / 1_000_000 >= expiry
  }

  ghost predicate RevokedIn(ops: seq<Op>, i: nat, k: nat)
    requires i < k <= |ops| && ops[i].CreateSession?
  {
    exists j | i < j < k :: ops[j] == Revoke(ops[i].id)
  }

  ghost predicate DeletedIn(ops: seq<Op>, i: nat, k: nat)
    requires i < k <= |ops| && ops[i].CreateSession?
  {
    exists j | i < j < k :: ops[j] == Delete(ops[i].sandbox)
  }

  /** A reap found the session revoked or lapsed. */
  ghost predicate ReapedIn(ops: seq<Op>, i: nat, k: nat)
    requires i < k <= |ops| && ops[i].CreateSession?
  {
    exists j | i < j < k :: ops[j].Reap? && (RevokedIn(ops, i, j) || Lapsed(ops[i], ops[j].nowNs))
  }

  /** What the session table says about minted session i after k calls. */
  ghost predicate Tracked(ops: seq<Op>, i: nat, k: nat)
    requires i < k <= |ops| && ops[i].CreateSession?
  {
    var sessions := After(ops[..k]).sessions;
    var id := ops[i].id;
    && (id in sessions <==> !DeletedIn(ops, i, k) && !ReapedIn(ops, i, k))
    && (id in sessions ==> sessions[id] == SessionOf(ops[i]).(revoked := RevokedIn(ops, i, k)))
  }

  lemma InWindow(ops: seq<Op>, i: nat, k: nat)
    requires i < k < |ops| && ops[i].CreateSession?
    ensures RevokedIn(ops, i, k + 1) <==> RevokedIn(ops, i, k) || ops[k] == Revoke(ops[i].id)
    ensures DeletedIn(ops, i, k + 1) <==> DeletedIn(ops, i, k) || ops[k] == Delete(ops[i].sandbox)
    ensures ReapedIn(ops, i, k + 1) <==>
      ReapedIn(ops, i, k) || (ops[k].Reap? && (RevokedIn(ops, i, k) || Lapsed(ops[i], ops[k].nowNs)))
  {
  }

  lemma TrackStep(ops: seq<Op>, i: nat, k: nat)
    requires i < k < |ops| && ops[i].CreateSession? && Tracked(ops, i, k)
    requires ops[k].CreateSession? ==> ops[k].id != ops[i].id
    ensures Tracked(ops, i, k + 1)
  {
    AfterStep(ops, k);
    InWindow(ops, i, k);
  }

  lemma {:induction false} Track(ops: seq<Op>, i: nat, k: nat)
    requires FreshSecrets(ops) && Minted(ops, i) && i < k <= |ops|
    ensures Tracked(ops, i, k)
    decreases k
  {
    if k == i + 1 {
      AfterStep(ops, i);
      KnownIff(ops, i, ops[i].sandbox);
    } else {
      Track(ops, i, k - 1);
      TrackStep(ops, i, k - 1);
    }
  }

  /** A call that adds a session is the one that mints it. */
  lemma SessionSource(st: State, op: Op, id: string)
    requires id in Apply(st, op).sessions && id !in st.sessions
    ensures op.CreateSession? && op.id == id && op.sandbox in st.sandboxes
  {
  }

  /** Every entry of the session table was minted by some call. */
  lemma {:induction false} Origin(ops: seq<Op>, k: nat, id: string) returns (i: nat)
    requires k <= |ops| && id in After(ops[..k]).sessions
    ensures i < k && Minted(ops, i) && ops[i].id == id
  {
    assert k > 0;
    AfterStep(ops, k - 1);
    if id in After(ops[..k - 1]).sessions {
      i := Origin(ops, k - 1, id);
    } else {
      SessionSource(After(ops[..k - 1]), ops[k - 1], id);
      KnownIff(ops, k - 1, ops[k - 1].sandbox);
      i := k - 1;
    }
  }

  /** The session a token's digest finds was minted for that token. */
  lemma MatchIsTracked(ops: seq<Op>, tok: string, id: string) returns (i: nat)
    requires FreshSecrets(ops) && SessionMatches(After(ops), id, tok)
    ensures Minted(ops, i) && ops[i].id == id && ops[i].tok == tok && Tracked(ops, i, |ops|)
    ensures After(ops[..|ops|]) == After(ops)
  {
    AfterAll(ops);
    i := Origin(ops, |ops|, id);
    Track(ops, i, |ops|);
  }

  /** The answer of ValidateSSHSession for the token minted by call i, from the calls since. */
  ghost function Answer(ops: seq<Op>, i: nat, s: string, nowNs: int): Verdict
    requires Minted(ops, i)
  {
    if DeletedIn(ops, i, |ops|) || ReapedIn(ops, i, |ops|) then Err(SessionNotFound)
    else if RevokedIn(ops, i, |ops|) then Err(SessionRevoked)
    else if Lapsed(ops[i], nowNs) then Err(SessionExpired)
    else if ops[i].sandbox != s then Err(WrongSandbox)
    else Ok(SessionOf(ops[i]))
  }

  lemma JudgedByHistory(ops: seq<Op>, i: nat, s: string, nowNs: int)
    requires FreshSecrets(ops) && Minted(ops, i) && SessionMatches(After(ops), ops[i].id, ops[i].tok)
    ensures Judge(After(ops), After(ops).sessions[ops[i].id], s, nowNs) == Answer(ops, i, s, nowNs)
  {
    AfterAll(ops);
    Track(ops, i, |ops|);
    AfterGrounded(ops);
  }

  lemma AnswerOfMinted(ops: seq<Op>, i: nat, s: string, nowNs: int, v: Verdict)
    requires FreshSecrets(ops) && Minted(ops, i) && MayAnswer(After(ops), ops[i].tok, s, nowNs, v)
    ensures v == Answer(ops, i, s, nowNs)
  {
    var tok := ops[i].tok;
    if exists id :: SessionMatches(After(ops), id, tok) {
      var id :| SessionMatches(After(ops), id, tok) && v == Judge(After(ops), After(ops).sessions[id], s, nowNs);
      var j := MatchIsTracked(ops, tok, id);
      JudgedByHistory(ops, i, s, nowNs);
    } else {
      AfterAll(ops);
      Track(ops, i, |ops|);
      assert !SessionMatches(After(ops), ops[i].id, tok);
    }
  }

  /**
   ValidateSSHSession gives exactly the answer the past calls imply, errors included, whatever the order of iterating
   over the session map and whatever the clock did: for a token minted by call i the one above, for a token never minted
   "not found".
   */
  lemma AnswerByHistory(ops: seq<Op>, tok: string, s: string, nowNs: int, v: Verdict)
    requires FreshSecrets(ops) && MayAnswer(After(ops), tok, s, nowNs, v)
    ensures forall i: nat | Minted(ops, i) && ops[i].tok == tok :: v == Answer(ops, i, s, nowNs)
    ensures (forall i: nat | Minted(ops, i) :: ops[i].tok != tok) ==> v == Err(SessionNotFound)
  {
    forall i: nat | Minted(ops, i) && ops[i].tok == tok ensures v == Answer(ops, i, s, nowNs) {
      AnswerOfMinted(ops, i, s, nowNs, v);
    }
    if id :| SessionMatches(After(ops), id, tok) {
      var i := MatchIsTracked(ops, tok, id);
    }
  }

  /** Call i minted tok for s, and since then the session was not revoked, s not deleted, and it has not lapsed. */
  ghost predicate Live(ops: seq<Op>, i: nat, tok: string, s: string, nowNs: int) {
    && Minted(ops, i) && ops[i].tok == tok && ops[i].sandbox == s
    && !RevokedIn(ops, i, |ops|) && !DeletedIn(ops, i, |ops|)
    && !Lapsed(ops[i], nowNs)
  }

  /** Live, and no reap so far ran at a time at which the session had lapsed. */
  ghost predicate Stands(ops: seq<Op>, i: nat, tok: string, s: string, nowNs: int) {
    Live(ops, i, tok, s, nowNs) && !ReapedIn(ops, i, |ops|)
  }

  ghost predicate ClockAtLeast(ops: seq<Op>, nowNs: int) {
    forall i | 0 <= i < |ops| && ops[i].Reap? :: ops[i].nowNs <= nowNs
  }

  /** In particular a token is accepted for s exactly when it stands, even if the clock goes back between reaps and
      validations. */
  lemma SessionAcceptedIffStands(ops: seq<Op>, tok: string, s: string, nowNs: int, v: Verdict)
    requires FreshSecrets(ops) && MayAnswer(After(ops), tok, s, nowNs, v)
    ensures v.Ok? <==> exists i: nat :: Stands(ops, i, tok, s, nowNs)
    ensures v.Ok? ==> exists i: nat :: Stands(ops, i, tok, s, nowNs) && v.value == SessionOf(ops[i])
  {
    AnswerByHistory(ops, tok, s, nowNs, v);
    if v.Ok? {
      var i: nat :| Minted(ops, i) && ops[i].tok == tok;
      assert v == Answer(ops, i, s, nowNs) && Stands(ops, i, tok, s, nowNs);
    }
  }

  /** From the latest reap time on, reaping does not matter: exactly the live sessions are accepted. */
  lemma SessionAcceptedIffLive(ops: seq<Op>, tok: string, s: string, nowNs: int, v: Verdict)
    requires FreshSecrets(ops) && ClockAtLeast(ops, nowNs) && MayAnswer(After(ops), tok, s, nowNs, v)
    ensures v.Ok? <==> exists i: nat :: Live(ops, i, tok, s, nowNs)
    ensures v.Ok? ==> exists i: nat :: Live(ops, i, tok, s, nowNs) && v.value == SessionOf(ops[i])
  {
    SessionAcceptedIffStands(ops, tok, s, nowNs, v);
    forall i: nat | Live(ops, i, tok, s, nowNs) ensures Stands(ops, i, tok, s, nowNs) {
      LiveStands(ops, i, tok, s, nowNs);
    }
  }

  lemma LiveStands(ops: seq<Op>, i: nat, tok: string, s: string, nowNs: int)
    requires ClockAtLeast(ops, nowNs) && Live(ops, i, tok, s, nowNs)
    ensures Stands(ops, i, tok, s, nowNs)
  {
  }

  /** A session reaped as expired stays refused even if the clock then goes back to before its expiry. */
  lemma ReapedBeforeClockWentBack(ops: seq<Op>, i: nat, tok: string, s: string, nowNs: int, v: Verdict)
    requires FreshSecrets(ops) && Live(ops, i, tok, s, nowNs) && ReapedIn(ops, i, |ops|)
    requires MayAnswer(After(ops), tok, s, nowNs, v)
    ensures v == Err(SessionNotFound)
  {
    AnswerByHistory(ops, tok, s, nowNs, v);
  }

  // --- Supervisor tokens ---

  /** Call i issued a token for s, and up to call k it is the latest issue-or-delete for s. */
  ghost predicate Holds(ops: seq<Op>, i: nat, k: nat, s: string, tok: string) {
    && i < k <= |ops| && ops[i].Issue? && ops[i].name == s && ops[i].tok == tok
    && Known(ops, i, s)
    && forall j | i < j < k :: !(ops[j].Issue? && ops[j].name == s) && ops[j] != Delete(s)
  }

  lemma {:induction false} HolderInTable(ops: seq<Op>, i: nat, k: nat, s: string, tok: string)
    requires Holds(ops, i, k, s, tok)
    ensures TokenMatches(After(ops[..k]), s, tok)
    ensures After(ops[..k]).tokens[s] == SandboxToken(HashToken(tok), ops[i].nowNs / 1_000_000)
    decreases k
  {
    AfterStep(ops, k - 1);
    if k > i + 1 {
      HolderInTable(ops, i, k - 1, s, tok);
    } else {
      KnownIff(ops, i, s);
    }
  }

  /** A token in the table was put there by this call, or was there before and this call is no delete of its sandbox. */
  lemma TokenSource(st: State, op: Op, s: string, tok: string)
    requires Grounded(st) && TokenMatches(Apply(st, op), s, tok)
    ensures if op.Issue? && op.name == s then op.tok == tok && s in st.sandboxes
            else op != Delete(s) && TokenMatches(st, s, tok)
  {
  }

  lemma {:induction false} TokenOrigin(ops: seq<Op>, k: nat, s: string, tok: string) returns (i: nat)
    requires k <= |ops| && TokenMatches(After(ops[..k]), s, tok)
    ensures Holds(ops, i, k, s, tok)
  {
    assert k > 0;
    AfterStep(ops, k - 1);
    AfterGrounded(ops[..k - 1]);
    TokenSource(After(ops[..k - 1]), ops[k - 1], s, tok);
    KnownIff(ops, k - 1, s);
    if ops[k - 1].Issue? && ops[k - 1].name == s {
      i := k - 1;
    } else {
      i := TokenOrigin(ops, k - 1, s, tok);
    }
  }

  lemma HolderResolves(ops: seq<Op>, i: nat, tok: string, s: string, r: Option<string>)
    requires FreshSecrets(ops) && MayResolve(After(ops), tok, r) && Holds(ops, i, |ops|, s, tok)
    ensures r == Some(s)
  {
    AfterAll(ops);
    HolderInTable(ops, i, |ops|, s, tok);
    var name :| TokenMatches(After(ops), name, tok)
      && r == (if name in After(ops).sandboxes then Some(name) else None);
    var j := TokenOrigin(ops, |ops|, name, tok);
    assert j == i;
    AfterGrounded(ops);
  }

  /**
   SandboxForToken yields s exactly when the latest issue-or-delete of s is the issue of that token, whatever the
   iteration order; so re-creating a name never revives an old token.
   */
  lemma TokenResolvesIffLatest(ops: seq<Op>, tok: string, s: string, r: Option<string>)
    requires FreshSecrets(ops) && MayResolve(After(ops), tok, r)
    ensures r == Some(s) <==> exists i: nat :: Holds(ops, i, |ops|, s, tok)
  {
    if r == Some(s) {
      AfterAll(ops);
      var i := TokenOrigin(ops, |ops|, s, tok);
    }
    forall i: nat | Holds(ops, i, |ops|, s, tok) ensures r == Some(s) {
      HolderResolves(ops, i, tok, s, r);
    }
  }
}
