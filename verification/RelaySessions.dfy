/** Supersession of supervisor sessions: who is registered, who is open, and who will close the rest. */
module RelaySessions {
  import opened Options
  import opened RelayHub

  predicate PastSwap(pc: SupervisorPc) {
    !pc.Accepted?
  }

  predicate Entry(h: Hub, s: SessionId) {
    s in h.supervisors && Lookup(h.sessions, h.supervisors[s].sandbox) == Some(s)
  }

  predicate Open(h: Hub, s: SessionId) {
    s in h.supervisors && PastSwap(h.supervisors[s].pc) && !h.supervisors[s].closed
  }

  /** ServeSupervisor call t has replaced s and is about to close it. */
  predicate Superseding(h: Hub, t: SessionId, s: SessionId) {
    t in h.supervisors && h.supervisors[t].pc == Swapped(Some(s))
  }

  /** Disconnect call d has taken s out of the map and is about to close it. */
  predicate Dropping(h: Hub, d: DisconnectId, s: SessionId) {
    d in h.disconnects && h.disconnects[d].Disconnecting? && h.disconnects[d].victim == Some(s)
  }

  /** Some thread is between its unlock and its close of s. */
  ghost predicate AboutToClose(h: Hub, s: SessionId) {
    || (s in h.supervisors && h.supervisors[s].pc.Unlinked?)
    || (exists t :: Superseding(h, t, s))
    || (exists d :: Dropping(h, d, s))
  }

  ghost predicate EntriesLive(h: Hub) {
    forall sandbox | sandbox in h.sessions ::
      && h.sessions[sandbox] in h.supervisors
      && var me := h.supervisors[h.sessions[sandbox]];
         me.sandbox == sandbox && (me.pc.Swapped? || me.pc.Serving? || me.pc.Leaving?)
  }

  ghost predicate OpenAccounted(h: Hub) {
    forall s | Open(h, s) :: Entry(h, s) || AboutToClose(h, s)
  }

  ghost predicate Linked(h: Hub) {
    EntriesLive(h) && OpenAccounted(h)
  }

  lemma SwapKeepsLinked(h: Hub, s: SessionId)
    requires Linked(h) && SupervisorCan(h, s, Swap)
    ensures Linked(SupervisorNext(h, s, Swap))
  {
    var k := SupervisorNext(h, s, Swap);
    forall p | Open(k, p) ensures Entry(k, p) || AboutToClose(k, p) {
      if p != s && Entry(h, p) {
        assert Entry(k, p) || Superseding(k, s, p);
      } else if p != s {
        CloserStays(h, k, p);
      }
    }
  }

  /** If no thread about to close p moved, p keeps its closer. */
  lemma CloserStays(h: Hub, k: Hub, p: SessionId)
    requires AboutToClose(h, p)
    requires p in h.supervisors && h.supervisors[p].pc.Unlinked? ==> p in k.supervisors && k.supervisors[p].pc.Unlinked?
    requires forall t | Superseding(h, t, p) :: Superseding(k, t, p)
    requires forall d | Dropping(h, d, p) :: Dropping(k, d, p)
    ensures AboutToClose(k, p)
  {
    if t :| Superseding(h, t, p) {
      assert Superseding(k, t, p);
    } else if d :| Dropping(h, d, p) {
      assert Dropping(k, d, p);
    }
  }

  lemma ClosePrevKeepsLinked(h: Hub, s: SessionId)
    requires Linked(h) && SupervisorCan(h, s, ClosePrev)
    ensures Linked(SupervisorNext(h, s, ClosePrev))
  {
    var k := SupervisorNext(h, s, ClosePrev);
    forall p | Open(k, p) ensures Entry(k, p) || AboutToClose(k, p) {
      assert Open(h, p);
      if !Entry(h, p) {
        CloserStays(h, k, p);
      }
    }
  }

  lemma UnlinkKeepsLinked(h: Hub, s: SessionId)
    requires Linked(h) && SupervisorCan(h, s, Unlink)
    ensures Linked(SupervisorNext(h, s, Unlink))
  {
    var k := SupervisorNext(h, s, Unlink);
    forall p | Open(k, p) ensures Entry(k, p) || AboutToClose(k, p) {
      assert Open(h, p);
      if p != s && !Entry(h, p) {
        CloserStays(h, k, p);
      }
    }
  }

  /** Steps that only close sessions or move a thread that is nobody's closer. */
  lemma QuietStepKeepsLinked(h: Hub, s: SessionId, step: SupervisorStep)
    requires Linked(h) && SupervisorCan(h, s, step)
    requires step.Arrive? || step.Leave? || step.CloseSelf? || step.ReaderClose?
    ensures Linked(SupervisorNext(h, s, step))
  {
    var k := SupervisorNext(h, s, step);
    forall p | Open(k, p) ensures Entry(k, p) || AboutToClose(k, p) {
      assert Open(h, p);
      if !Entry(h, p) {
        CloserStays(h, k, p);
      }
    }
  }

  lemma DisconnectKeepsLinked(h: Hub, d: DisconnectId, step: DisconnectStep)
    requires Linked(h) && DisconnectCan(h, d, step)
    ensures Linked(DisconnectNext(h, d, step))
  {
    var k := DisconnectNext(h, d, step);
    forall p | Open(k, p) ensures Entry(k, p) || AboutToClose(k, p) {
      assert Open(h, p);
      if Entry(h, p) {
        assert Entry(k, p) || Dropping(k, d, p);
      } else {
        CloserStays(h, k, p);
      }
    }
  }

  /** Openers at most close a session; relays do not touch sessions at all. */
  lemma ClosingKeepsLinked(h: Hub, k: Hub)
    requires Linked(h) && k.sessions == h.sessions && k.disconnects == h.disconnects
    requires k.supervisors.Keys == h.supervisors.Keys
    requires forall s | s in h.supervisors ::
      k.supervisors[s] == h.supervisors[s] || k.supervisors[s] == h.supervisors[s].(closed := true)
    ensures Linked(k)
  {
    forall p | Open(k, p) ensures Entry(k, p) || AboutToClose(k, p) {
      assert Open(h, p);
      if !Entry(h, p) {
        CloserStays(h, k, p);
      }
    }
  }

  lemma OpenerStepKeepsLinked(h: Hub, o: OpenerId, step: OpenerStep)
    requires Linked(h) && OpenerCan(h, o, step)
    ensures Linked(OpenerNext(h, o, step))
  {
    ClosingKeepsLinked(h, OpenerNext(h, o, step));
  }

  lemma RelayStepKeepsLinked(h: Hub, r: RelayId, step: RelayStep)
    requires Linked(h) && RelayCan(h, r, step)
    ensures Linked(RelayNext(h, r, step))
  {
    ClosingKeepsLinked(h, RelayNext(h, r, step));
  }

  lemma SupervisorStepKeepsLinked(h: Hub, s: SessionId, step: SupervisorStep)
    requires Linked(h) && SupervisorCan(h, s, step)
    ensures Linked(SupervisorNext(h, s, step))
  {
    match step
    case Swap => SwapKeepsLinked(h, s);
    case ClosePrev => ClosePrevKeepsLinked(h, s);
    case Unlink => UnlinkKeepsLinked(h, s);
    case _ => QuietStepKeepsLinked(h, s, step);
  }

  /** Every enabled action keeps the session invariant. */
  lemma StepKeepsLinked(h: Hub, a: Action)
    requires Linked(h) && Enabled(h, a)
    ensures Linked(Next(h, a))
  {
    match a
    case OfSupervisor(s, step) => SupervisorStepKeepsLinked(h, s, step);
    case OfDisconnect(d, step) => DisconnectKeepsLinked(h, d, step);
    case OfOpener(o, step) => OpenerStepKeepsLinked(h, o, step);
    case OfRelay(r, step) => RelayStepKeepsLinked(h, r, step);
  }

  lemma {:induction false} RunKeepsLinked(states: seq<Hub>, actions: seq<Action>, k: nat)
    requires IsRun(states, actions) && k < |states|
    ensures Linked(states[k])
  {
    if k > 0 {
      RunKeepsLinked(states, actions, k - 1);
      assert StepAt(states, actions, k - 1);
      StepKeepsLinked(states[k - 1], actions[k - 1]);
    }
  }

  // --- What it means ---

  /** In every reachable state an open registered session is its sandbox's map entry or about to be closed. */
  lemma OpenSessionsAccounted(states: seq<Hub>, actions: seq<Action>, k: nat, s: SessionId)
    requires IsRun(states, actions) && k < |states| && Open(states[k], s)
    ensures Entry(states[k], s) || AboutToClose(states[k], s)
  {
    RunKeepsLinked(states, actions, k);
  }

  /** No thread is between its unlock and its close. */
  ghost predicate Settled(h: Hub) {
    && (forall s | s in h.supervisors :: h.supervisors[s].pc != Unlinked)
    && (forall t, s :: !Superseding(h, t, s))
    && (forall d, s :: !Dropping(h, d, s))
  }

  /** When the hub is settled a sandbox has at most one open control stream, and it is the registered one. */
  lemma OneOpenStreamPerSandbox(states: seq<Hub>, actions: seq<Action>, k: nat, s: SessionId, t: SessionId)
    requires IsRun(states, actions) && k < |states| && Settled(states[k])
    requires Open(states[k], s) && Open(states[k], t)
    requires states[k].supervisors[s].sandbox == states[k].supervisors[t].sandbox
    ensures s == t && states[k].supervisors[s].sandbox in states[k].sessions
  {
    OpenSessionsAccounted(states, actions, k, s);
    OpenSessionsAccounted(states, actions, k, t);
  }

  /** The only steps that may take a session out of the map entry it holds. */
  predicate MayUnregister(h: Hub, a: Action, s: SessionId) {
    s in h.supervisors &&
    match a
    case OfSupervisor(t, Swap) => t in h.supervisors && h.supervisors[t].sandbox == h.supervisors[s].sandbox
    case OfSupervisor(t, Unlink) => t == s
    case OfDisconnect(_, Take(sandbox)) => sandbox == h.supervisors[s].sandbox
    case _ => false
  }

  lemma SupervisorStepKeepsEntry(h: Hub, t: SessionId, step: SupervisorStep, s: SessionId)
    requires SupervisorCan(h, t, step) && Entry(h, s) && !MayUnregister(h, OfSupervisor(t, step), s)
    ensures Entry(SupervisorNext(h, t, step), s)
    ensures SupervisorNext(h, t, step).supervisors[s].sandbox == h.supervisors[s].sandbox
  {
  }

  /** A session stays registered until its own cleanup, a Disconnect of its sandbox, or a newer session replaces it;
      so the deferred cleanup of an older session of the same sandbox never removes it. */
  lemma {:induction false} RegisteredUntilReplaced(states: seq<Hub>, actions: seq<Action>, i: nat, k: nat, s: SessionId)
    requires IsRun(states, actions) && i <= k < |states| && Entry(states[i], s)
    requires forall j | i <= j < k :: !MayUnregister(states[j], actions[j], s)
    ensures Entry(states[k], s)
    decreases k - i
  {
    if i < k {
      RegisteredUntilReplaced(states, actions, i, k - 1, s);
      assert StepAt(states, actions, k - 1);
      match actions[k - 1] {
        case OfSupervisor(t, step) => SupervisorStepKeepsEntry(states[k - 1], t, step, s);
        case _ =>
      }
    }
  }
}
