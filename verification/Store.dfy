/** The gateway store (internal/storage/store/store.go, auth.go, proposals.go): one object, updated in place. */
module Store {
  import opened Options
  import opened Sequences
  import opened StoreState

  datatype StoreError = NotFound | Invalid | FlushFailed | ParseFailed | NoAccess

  /** Whether Open gets at its files: making the directory private, then reading state.json, may fail. */
  datatype Access = Granted | DirFails | ReadFails

  class Store {
    var state: State
    var main: Option<Content>
    var tmp: Option<Content>

    ghost function View(): Node
      reads this
    {
      Node(state, main, tmp)
    }

    constructor (state: State, main: Option<Content>, tmp: Option<Content>)
      ensures View() == Node(state, main, tmp)
    {
      this.state, this.main, this.tmp := state, main, tmp;
    }

    /**
     Open loads state.json, or starts empty if there is none, and writes it back; the temporary file is never read.
     Without access to the directory or the file, or with a file that does not parse, it fails before touching anything.
     If the flush fails, the store is returned beside the error.
     */
    static method Open(main: Option<Content>, tmp: Option<Content>, a: Access, f: Fault)
        returns (s: Store?, r: Result<(), StoreError>)
      ensures s == null <==> !a.Granted? || main == Some(Garbled)
      ensures r == if !a.Granted? then Err(NoAccess) else if main == Some(Garbled) then Err(ParseFailed)
                   else if !f.NoFault? then Err(FlushFailed) else Ok(())
      ensures s != null ==> fresh(s) && s.View() == Flush(Node(Loaded(main), main, tmp), f)
    {
      if a.DirFails? {
        return null, Err(NoAccess);
      }
      var loaded := EMPTY_STATE;
      if a.ReadFails? {
        return null, Err(NoAccess);
      }
      if main.Some? {
        if main.value.Garbled? {
          return null, Err(ParseFailed);
        }
        loaded := main.value.state;
      }
      s := new Store(loaded, main, tmp);
      var ok := s.FlushLocked(f);
      r := if ok then Ok(()) else Err(FlushFailed);
    }

    method FlushLocked(f: Fault) returns (ok: bool)
      modifies this`main, this`tmp
      ensures View() == Flush(old(View()), f)
      ensures ok <==> f.NoFault?
    {
      if f.MarshalFault? {
        return false;
      }
      if f.WriteFault? {
        tmp := f.left;
        return false;
      }
      tmp := Some(Json(state));
      if f.ChmodFault? || f.RenameFault? {
        return false;
      }
      main, tmp := tmp, None;
      return true;
    }

    /** Fields the update leaves empty keep their previous value. */
    static method KeepPrevious(prev: Sandbox, sb: Sandbox) returns (merged: Sandbox)
      ensures merged == MergedWith(prev, sb)
    {
      merged := sb;
      if |merged.attachedProviders| == 0 && |prev.attachedProviders| > 0 {
        merged := merged.(attachedProviders := prev.attachedProviders);
      }
      if merged.basePolicyYaml == "" && prev.basePolicyYaml != "" {
        merged := merged.(basePolicyYaml := prev.basePolicyYaml);
      }
      if merged.policyRev == 0 && prev.policyRev > 0 {
        merged := merged.(policyRev := prev.policyRev);
      }
      if |merged.policyRevisions| == 0 && |prev.policyRevisions| > 0 {
        merged := merged.(policyRevisions := prev.policyRevisions);
      }
    }

    method UpsertSandbox(sb: Sandbox, f: Fault) returns (ok: bool)
      modifies this
      ensures View() == Call(old(View()), Upsert(sb), f)
      ensures ok <==> f.NoFault?
    {
      var merged := sb;
      if sb.name in state.sandboxes {
        merged := KeepPrevious(state.sandboxes[sb.name], sb);
      }
      state := state.(sandboxes := state.sandboxes[sb.name := merged]);
      ok := FlushLocked(f);
    }

    method DeleteSandbox(name: string, f: Fault) returns (ok: bool)
      modifies this
      ensures View() == Call(old(View()), Delete(name), f)
      ensures ok <==> f.NoFault?
    {
      state := state.(sandboxes := state.sandboxes - {name}, tokens := state.tokens - {name});
      var todo := state.sessions.Keys;
      while todo != {}
        invariant state == old(state).(sandboxes := old(state).sandboxes - {name}, tokens := old(state).tokens - {name},
                                       sessions := state.sessions)
        invariant todo <= state.sessions.Keys <= old(state).sessions.Keys
        invariant forall id | id in state.sessions :: state.sessions[id] == old(state).sessions[id]
        invariant forall id | id in old(state).sessions && id !in todo ::
                    id in state.sessions <==> old(state).sessions[id].sandbox != name
        invariant main == old(main) && tmp == old(tmp)
        decreases todo
      {
        var id :| id in todo;
        if state.sessions[id].sandbox == name {
          state := state.(sessions := state.sessions - {id});
        }
        todo := todo - {id};
      }
      assert state.sessions == SessionsWithout(old(state).sessions, name);
      ok := FlushLocked(f);
    }

    method SetBasePolicy(sandbox: string, yaml: string, f: Fault) returns (r: Result<(), StoreError>)
      modifies this
      ensures View() == Call(old(View()), SetBase(sandbox, yaml), f)
      ensures r.Ok? <==> sandbox in old(state).sandboxes && f.NoFault?
    {
      if sandbox !in state.sandboxes {
        return Err(NotFound);
      }
      var sb := state.sandboxes[sandbox];
      sb := sb.(basePolicyYaml := yaml, policyRev := sb.policyRev + 1);
      var rev := PolicyRevision(sb.policyRev, |yaml|, "loaded", yaml);
      sb := sb.(policyRevisions := sb.policyRevisions + [rev]);
      if |sb.policyRevisions| > MAX_POLICY_REVISIONS {
        sb := sb.(policyRevisions := sb.policyRevisions[|sb.policyRevisions| - MAX_POLICY_REVISIONS..]);
      }
      state := state.(sandboxes := state.sandboxes[sandbox := sb]);
      var ok := FlushLocked(f);
      return if ok then Ok(()) else Err(FlushFailed);
    }

    /** The first retained revision with that number. */
    method GetPolicyRevision(sandbox: string, rev: int) returns (r: Result<PolicyRevision, StoreError>)
      ensures r.Ok? <==>
        sandbox in state.sandboxes && exists x :: x in state.sandboxes[sandbox].policyRevisions && x.rev == rev
      ensures r.Ok? ==>
        var revs := state.sandboxes[sandbox].policyRevisions;
        exists i | 0 <= i < |revs| ::
          revs[i] == r.value && revs[i].rev == rev && forall j | 0 <= j < i :: revs[j].rev != rev
      ensures r.Err? ==> r.error == NotFound
    {
      if sandbox !in state.sandboxes {
        return Err(NotFound);
      }
      var revs := state.sandboxes[sandbox].policyRevisions;
      for i := 0 to |revs|
        invariant forall j | 0 <= j < i :: revs[j].rev != rev
      {
        if revs[i].rev == rev {
          return Ok(revs[i]);
        }
      }
      return Err(NotFound);
    }

    method AttachProvider(sandbox: string, provider: string, f: Fault) returns (r: Result<(), StoreError>)
      modifies this
      ensures View() == Call(old(View()), Attach(sandbox, provider), f)
      ensures r.Ok? <==>
        sandbox in old(state).sandboxes && (Flushes(old(state), Attach(sandbox, provider)) ==> f.NoFault?)
    {
      if sandbox !in state.sandboxes {
        return Err(NotFound);
      }
      var sb := state.sandboxes[sandbox];
      for i := 0 to |sb.attachedProviders|
        invariant forall j | 0 <= j < i :: sb.attachedProviders[j] != provider
      {
        if sb.attachedProviders[i] == provider {
          return Ok(());
        }
      }
      sb := sb.(attachedProviders := sb.attachedProviders + [provider]);
      state := state.(sandboxes := state.sandboxes[sandbox := sb]);
      var ok := FlushLocked(f);
      return if ok then Ok(()) else Err(FlushFailed);
    }

    method DetachProvider(sandbox: string, provider: string, f: Fault) returns (r: Result<(), StoreError>)
      modifies this
      ensures View() == Call(old(View()), Detach(sandbox, provider), f)
      ensures r.Ok? <==> sandbox in old(state).sandboxes && f.NoFault?
    {
      if sandbox !in state.sandboxes {
        return Err(NotFound);
      }
      var sb := state.sandboxes[sandbox];
      var out: seq<string> := [];
      for i := 0 to |sb.attachedProviders|
        invariant Without(sb.attachedProviders, provider) == out + Without(sb.attachedProviders[i..], provider)
      {
        if sb.attachedProviders[i] != provider {
          out := out + [sb.attachedProviders[i]];
        }
      }
      assert out == Without(sb.attachedProviders, provider);
      state := state.(sandboxes := state.sandboxes[sandbox := sb.(attachedProviders := out)]);
      var ok := FlushLocked(f);
      return if ok then Ok(()) else Err(FlushFailed);
    }

    // --- Credentials ---

    /** `tok` is the secret drawn by the call; the plaintext is returned once. */
    method IssueSandboxToken(name: string, tok: string, nowNs: int, f: Fault) returns (r: Result<string, StoreError>)
      modifies this
      ensures View() == Call(old(View()), Issue(name, tok, nowNs), f)
      ensures r == if name !in old(state).sandboxes then Err(NotFound)
                   else if f.NoFault? then Ok(tok) else Err(FlushFailed)
    {
      if name !in state.sandboxes {
        return Err(NotFound);
      }
      state := state.(tokens := state.tokens[name := SandboxToken(HashToken(tok), UnixMilli(nowNs))]);
      var ok := FlushLocked(f);
      return if ok then Ok(tok) else Err(FlushFailed);
    }

    method SandboxForToken(tok: string) returns (r: Option<string>)
      ensures MayResolve(state, tok, r)
    {
      if tok == "" {
        return None;
      }
      var todo := state.tokens.Keys;
      while todo != {}
        invariant todo <= state.tokens.Keys
        invariant forall name | name in state.tokens && name !in todo :: !TokenMatches(state, name, tok)
        decreases todo
      {
        var name :| name in todo;
        if state.tokens[name].hash == HashToken(tok) {
          assert TokenMatches(state, name, tok);
          return if name in state.sandboxes then Some(name) else None;
        }
        todo := todo - {name};
      }
      return None;
    }

    method CreateSSHSession(id: string, sandbox: string, tok: string, subject: string, nowNs: int, ttlNs: int, f: Fault)
        returns (r: Result<(SshSession, string), StoreError>)
      modifies this
      ensures View() == Call(old(View()), CreateSession(id, sandbox, tok, subject, nowNs, ttlNs), f)
      ensures r == if sandbox !in old(state).sandboxes then Err(NotFound)
                   else if f.NoFault? then Ok((NewSession(id, sandbox, tok, subject, nowNs, ttlNs), tok))
                   else Err(FlushFailed)
    {
      var sess := SshSession(id, sandbox, HashToken(tok), subject, UnixMilli(nowNs), 0, false);
      if ttlNs > 0 {
        sess := sess.(expiresAtMs := UnixMilli(nowNs + ttlNs));
      }
      if sandbox !in state.sandboxes {
        return Err(NotFound);
      }
      state := state.(sessions := state.sessions[id := sess]);
      var ok := FlushLocked(f);
      return if ok then Ok((sess, tok)) else Err(FlushFailed);
    }

    method ValidateSSHSession(tok: string, sandbox: string, nowNs: int) returns (v: Verdict)
      ensures MayAnswer(state, tok, sandbox, nowNs, v)
    {
      if tok == "" {
        return Err(SessionNotFound);
      }
      var todo := state.sessions.Keys;
      while todo != {}
        invariant todo <= state.sessions.Keys
        invariant forall id | id in state.sessions && id !in todo :: !SessionMatches(state, id, tok)
        decreases todo
      {
        var id :| id in todo;
        var sess := state.sessions[id];
        if sess.tokenHash == HashToken(tok) {
          assert SessionMatches(state, id, tok);
          if sess.revoked {
            return Err(SessionRevoked);
          }
          if sess.expiresAtMs > 0 && UnixMilli(nowNs) >= sess.expiresAtMs {
            return Err(SessionExpired);
          }
          if sess.sandbox != sandbox {
            return Err(WrongSandbox);
          }
          if sess.sandbox !in state.sandboxes {
            return Err(SessionNotFound);
          }
          return Ok(sess);
        }
        todo := todo - {id};
      }
      return Err(SessionNotFound);
    }

    method RevokeSSHSession(id: string, f: Fault) returns (r: Result<(), StoreError>)
      modifies this
      ensures View() == Call(old(View()), Revoke(id), f)
      ensures r == if id !in old(state).sessions then Err(NotFound) else if f.NoFault? then Ok(()) else Err(FlushFailed)
    {
      if id !in state.sessions {
        return Err(NotFound);
      }
      state := state.(sessions := state.sessions[id := state.sessions[id].(revoked := true)]);
      var ok := FlushLocked(f);
      return if ok then Ok(()) else Err(FlushFailed);
    }

    /** Deletes expired and revoked sessions while iterating; n is how many went. */
    method DropReapable(nowNs: int) returns (n: nat)
      modifies this`state
      ensures state == old(state).(sessions := SessionsAfterReap(old(state).sessions, nowNs))
      ensures n == |old(state).sessions| - |state.sessions|
      ensures n == 0 <==> !Flushes(old(state), Reap(nowNs))
    {
      n := 0;
      var todo := state.sessions.Keys;
      while todo != {}
        invariant state == old(state).(sessions := state.sessions)
        invariant todo <= state.sessions.Keys <= old(state).sessions.Keys
        invariant n + |state.sessions| == |old(state).sessions|
        invariant forall id | id in state.sessions :: state.sessions[id] == old(state).sessions[id]
        invariant forall id | id in old(state).sessions && id !in todo ::
                    id in state.sessions <==> !Reapable(old(state).sessions[id], nowNs)
        invariant n == 0 ==> state.sessions == old(state).sessions
        invariant n > 0 ==> exists id | id in old(state).sessions :: Reapable(old(state).sessions[id], nowNs)
        decreases todo
      {
        var id :| id in todo;
        var sess := state.sessions[id];
        if sess.revoked || (sess.expiresAtMs > 0 && UnixMilli(nowNs) >= sess.expiresAtMs) {
          assert Reapable(old(state).sessions[id], nowNs);
          DropOne(state.sessions, id);
          state := state.(sessions := state.sessions - {id});
          n := n + 1;
        }
        todo := todo - {id};
      }
      assert state.sessions == SessionsAfterReap(old(state).sessions, nowNs);
    }

    method ReapSSHSessions(nowNs: int, f: Fault) returns (n: nat, ok: bool)
      modifies this
      ensures View() == Call(old(View()), Reap(nowNs), f)
      ensures n == |old(state).sessions| - |state.sessions|
      ensures n == 0 <==> !Flushes(old(state), Reap(nowNs))
      ensures ok <==> n == 0 || f.NoFault?
    {
      n := DropReapable(nowNs);
      if n == 0 {
        assert state.sessions == old(state).sessions;
        return 0, true;
      }
      ok := FlushLocked(f);
    }

    // --- Proposals ---

    method GetSandbox(name: string) returns (r: Option<Sandbox>)
      ensures r == if name in state.sandboxes then Some(state.sandboxes[name]) else None
    {
      r := if name in state.sandboxes then Some(state.sandboxes[name]) else None;
    }

    method GetProposal(id: string) returns (r: Option<Proposal>)
      ensures r == if id in state.proposals then Some(state.proposals[id]) else None
    {
      r := if id in state.proposals then Some(state.proposals[id]) else None;
    }

    method PutProposal(p: Proposal, f: Fault) returns (r: Result<(), StoreError>)
      modifies this
      ensures View() == Call(old(View()), Op.PutProposal(p), f)
      ensures r == if p.id == "" || p.sandbox == "" then Err(Invalid)
                   else if f.NoFault? then Ok(()) else Err(FlushFailed)
    {
      if p.id == "" || p.sandbox == "" {
        return Err(Invalid);
      }
      var q := p;
      if q.status == "" {
        q := q.(status := "pending");
      }
      state := state.(proposals := state.proposals[p.id := q]);
      var ok := FlushLocked(f);
      return if ok then Ok(()) else Err(FlushFailed);
    }

    method DecideProposal(id: string, status: string, reason: string, f: Fault)
        returns (r: Result<Proposal, StoreError>)
      modifies this
      ensures View() == Call(old(View()), Decide(id, status, reason), f)
      ensures r.Ok? <==> Flushes(old(state), Decide(id, status, reason)) && f.NoFault?
      ensures r.Ok? ==> r.value == state.proposals[id]
    {
      if id !in state.proposals {
        return Err(NotFound);
      }
      if status != "approved" && status != "rejected" {
        return Err(Invalid);
      }
      var p := state.proposals[id].(status := status, rejectionReason := reason);
      state := state.(proposals := state.proposals[id := p]);
      var ok := FlushLocked(f);
      return if ok then Ok(p) else Err(FlushFailed);
    }
  }

  lemma DropOne(m: map<string, SshSession>, id: string)
    requires id in m
    ensures |m - {id}| == |m| - 1
  {
    assert (m - {id}).Keys == m.Keys - {id};
  }
}
