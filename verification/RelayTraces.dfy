/**
 What the hub's tables and threads say about the past: each fact about a
 reachable state holds exactly when certain steps have happened and others not.
 */
module RelayTraces {
  import opened Options
  import opened RelayHub
  import opened RelayPairing
  import opened RelaySessions
  import opened RelayRuns

  // --- The session table ---

  /** The section of ServeSupervisor that registers session s for the sandbox. */
  predicate Enters(h: Hub, a: Action, sandbox: string, s: SessionId) {
    a == OfSupervisor(s, Swap) && s in h.supervisors && h.supervisors[s].sandbox == sandbox
  }

  /** A newer session of the sandbox, a Disconnect of it, or the session's own cleanup. */
  predicate Ousts(h: Hub, a: Action, sandbox: string, s: SessionId) {
    || (a.OfSupervisor? && a.supervisor.Swap? && a.s in h.supervisors && h.supervisors[a.s].sandbox == sandbox)
    || (a.OfDisconnect? && a.disconnect == Take(sandbox))
    || a == OfSupervisor(s, Unlink)
  }

  lemma SupervisorMovesEntry(h: Hub, t: SessionId, step: SupervisorStep, sandbox: string, s: SessionId)
    requires EntriesLive(h) && SupervisorCan(h, t, step)
    ensures var a := OfSupervisor(t, step);
            Lookup(SupervisorNext(h, t, step).sessions, sandbox) == Some(s) <==>
              Enters(h, a, sandbox, s) || (Lookup(h.sessions, sandbox) == Some(s) && !Ousts(h, a, sandbox, s))
  {
  }

  lemma StepMovesEntry(h: Hub, a: Action, sandbox: string, s: SessionId)
    requires EntriesLive(h) && Enabled(h, a)
    ensures Lookup(Next(h, a).sessions, sandbox) == Some(s) <==>
              Enters(h, a, sandbox, s) || (Lookup(h.sessions, sandbox) == Some(s) && !Ousts(h, a, sandbox, s))
  {
    match a
    case OfSupervisor(t, step) => SupervisorMovesEntry(h, t, step, sandbox, s);
    case OfDisconnect(_, _) =>
    case OfOpener(o, step) => OpenerKeepsSessions(h, o, step);
    case OfRelay(r, step) => RelayKeepsSessions(h, r, step);
  }

  lemma OpenerKeepsSessions(h: Hub, o: OpenerId, step: OpenerStep)
    requires OpenerCan(h, o, step)
    ensures OpenerNext(h, o, step).sessions == h.sessions
  {
  }

  lemma RelayKeepsSessions(h: Hub, r: RelayId, step: RelayStep)
    requires RelayCan(h, r, step)
    ensures RelayNext(h, r, step).sessions == h.sessions
  {
  }

  /** Step i registered s for the sandbox and no later step before k took it out. */
  ghost predicate EnteredSince(states: seq<Hub>, actions: seq<Action>, i: nat, k: nat, sandbox: string, s: SessionId)
    requires IsRun(states, actions) && k <= |actions|
  {
    && i < k && Enters(states[i], actions[i], sandbox, s)
    && forall j | i < j < k :: !Ousts(states[j], actions[j], sandbox, s)
  }

  /** In every run the map entry of a sandbox is the session whose registration no newer session, Disconnect or own
      cleanup has followed. */
  lemma {:induction false} EntryIffEntered(states: seq<Hub>, actions: seq<Action>, k: nat,
                                           sandbox: string, s: SessionId)
    requires IsRun(states, actions) && k < |states|
    ensures Lookup(states[k].sessions, sandbox) == Some(s) <==>
              exists i: nat :: EnteredSince(states, actions, i, k, sandbox, s)
  {
    if k > 0 {
      var j: nat := k - 1;
      EntryIffEntered(states, actions, j, sandbox, s);
      RunKeepsLinked(states, actions, j);
      LastStepMovesEntry(states, actions, j, sandbox, s);
      if Enters(states[j], actions[j], sandbox, s) {
        assert EnteredSince(states, actions, j, k, sandbox, s);
      } else if i: nat :| EnteredSince(states, actions, i, j, sandbox, s) {
        assert !Ousts(states[j], actions[j], sandbox, s) ==> EnteredSince(states, actions, i, k, sandbox, s);
      }
      forall i: nat | EnteredSince(states, actions, i, k, sandbox, s) && i < j
        ensures EnteredSince(states, actions, i, j, sandbox, s) && !Ousts(states[j], actions[j], sandbox, s) {}
    }
  }

  lemma LastStepMovesEntry(states: seq<Hub>, actions: seq<Action>, j: nat, sandbox: string, s: SessionId)
    requires IsRun(states, actions) && j < |actions| && EntriesLive(states[j])
    ensures Lookup(states[j + 1].sessions, sandbox) == Some(s) <==>
              || Enters(states[j], actions[j], sandbox, s)
              || (Lookup(states[j].sessions, sandbox) == Some(s) && !Ousts(states[j], actions[j], sandbox, s))
  {
    assert StepAt(states, actions, j);
    StepMovesEntry(states[j], actions[j], sandbox, s);
  }

  /** From a Disconnect on, its sandbox has no entry until a session of it registers; other entries are untouched. */
  lemma GoneUntilSwap(states: seq<Hub>, actions: seq<Action>, i: nat, k: nat, d: DisconnectId, sandbox: string)
    requires IsRun(states, actions) && i < k < |states| && actions[i] == OfDisconnect(d, Take(sandbox))
    requires forall j, s | i < j < k :: !Enters(states[j], actions[j], sandbox, s)
    ensures sandbox !in states[k].sessions
    ensures states[i + 1].sessions == states[i].sessions - {sandbox}
  {
    assert StepAt(states, actions, i);
    if sandbox in states[k].sessions {
      var s := states[k].sessions[sandbox];
      EntryIffEntered(states, actions, k, sandbox, s);
      var m: nat :| EnteredSince(states, actions, m, k, sandbox, s);
      assert m < i && Ousts(states[i], actions[i], sandbox, s);
    }
  }

  // --- The pending table ---

  predicate Registers(h: Hub, a: Action, ch: string, o: OpenerId) {
    a == OfOpener(o, Register) && o in h.openers && h.openers[o].channel == ch && h.openers[o].sandbox in h.sessions
  }

  /** The opener's deferred delete, or a ServeRelay section with the opener's own sandbox and channel. */
  predicate Unregisters(h: Hub, a: Action, o: OpenerId) {
    || a == OfOpener(o, Remove)
    || (a.OfRelay? && a.relay.Claim? && a.r in h.relays && o in h.openers
        && h.relays[a.r].sandbox == h.openers[o].sandbox && h.relays[a.r].channel == h.openers[o].channel)
  }

  lemma OpenerMovesPending(h: Hub, p: OpenerId, step: OpenerStep, ch: string, o: OpenerId)
    requires EntriesOpen(h) && ChannelsDistinct(h) && OpenerCan(h, p, step)
    ensures var a := OfOpener(p, step);
            Lookup(OpenerNext(h, p, step).pending, ch) == Some(o) <==>
              Registers(h, a, ch, o) || (Lookup(h.pending, ch) == Some(o) && !Unregisters(h, a, o))
  {
  }

  lemma ClaimMovesPending(h: Hub, r: RelayId, ch: string, o: OpenerId)
    requires EntriesOpen(h) && ChannelsDistinct(h) && RelayCan(h, r, Claim)
    ensures Lookup(RelayNext(h, r, Claim).pending, ch) == Some(o) <==>
              Lookup(h.pending, ch) == Some(o) && !Unregisters(h, OfRelay(r, Claim), o)
  {
  }

  lemma RelayMovesPending(h: Hub, r: RelayId, step: RelayStep, ch: string, o: OpenerId)
    requires EntriesOpen(h) && ChannelsDistinct(h) && RelayCan(h, r, step)
    ensures var a := OfRelay(r, step);
            Lookup(RelayNext(h, r, step).pending, ch) == Some(o) <==>
              Registers(h, a, ch, o) || (Lookup(h.pending, ch) == Some(o) && !Unregisters(h, a, o))
  {
    if step.Claim? {
      ClaimMovesPending(h, r, ch, o);
    }
  }

  lemma StepMovesPending(h: Hub, a: Action, ch: string, o: OpenerId)
    requires EntriesOpen(h) && ChannelsDistinct(h) && Enabled(h, a)
    ensures Lookup(Next(h, a).pending, ch) == Some(o) <==>
              Registers(h, a, ch, o) || (Lookup(h.pending, ch) == Some(o) && !Unregisters(h, a, o))
  {
    match a
    case OfSupervisor(s, step) => SupervisorStepFrame(h, s, step);
    case OfDisconnect(_, _) =>
    case OfOpener(p, step) => OpenerMovesPending(h, p, step, ch, o);
    case OfRelay(r, step) => RelayMovesPending(h, r, step, ch, o);
  }

  ghost predicate RegisteredSince(states: seq<Hub>, actions: seq<Action>, i: nat, k: nat, ch: string, o: OpenerId)
    requires IsRun(states, actions) && k <= |actions|
  {
    i < k && Registers(states[i], actions[i], ch, o) && forall j | i < j < k :: !Unregisters(states[j], actions[j], o)
  }

  lemma LastStepMovesPending(states: seq<Hub>, actions: seq<Action>, j: nat, ch: string, o: OpenerId)
    requires IsRun(states, actions) && j < |actions| && EntriesOpen(states[j]) && ChannelsDistinct(states[j])
    ensures Lookup(states[j + 1].pending, ch) == Some(o) <==>
              || Registers(states[j], actions[j], ch, o)
              || (Lookup(states[j].pending, ch) == Some(o) && !Unregisters(states[j], actions[j], o))
  {
    assert StepAt(states, actions, j);
    StepMovesPending(states[j], actions[j], ch, o);
  }

  /** In every run a channel is pending for an opener exactly from its registration on a connected sandbox until its
      cleanup or a ServeRelay with its sandbox and channel. */
  lemma {:induction false} PendingIffRegistered(states: seq<Hub>, actions: seq<Action>, k: nat, ch: string, o: OpenerId)
    requires IsRun(states, actions) && k < |states|
    ensures Lookup(states[k].pending, ch) == Some(o) <==>
              exists i: nat :: RegisteredSince(states, actions, i, k, ch, o)
  {
    if k > 0 {
      var j: nat := k - 1;
      PendingIffRegistered(states, actions, j, ch, o);
      RunKeepsPaired(states, actions, j);
      LastStepMovesPending(states, actions, j, ch, o);
      if Registers(states[j], actions[j], ch, o) {
        assert RegisteredSince(states, actions, j, k, ch, o);
      } else if i: nat :| RegisteredSince(states, actions, i, j, ch, o) {
        assert !Unregisters(states[j], actions[j], o) ==> RegisteredSince(states, actions, i, k, ch, o);
      }
      forall i: nat | RegisteredSince(states, actions, i, k, ch, o) && i < j
        ensures RegisteredSince(states, actions, i, j, ch, o) && !Unregisters(states[j], actions[j], o) {}
    }
  }

  // --- Closed sessions ---

  /** The steps that close session s: its reader, its own end, the session that replaced it, a Disconnect that took it,
      an opener that could not write to it. */
  predicate ClosesSession(h: Hub, a: Action, s: SessionId) {
    match a
    case OfSupervisor(t, ReaderClose) => t == s
    case OfSupervisor(t, CloseSelf) => t == s
    case OfSupervisor(t, ClosePrev) => t in h.supervisors && h.supervisors[t].pc == Swapped(Some(s))
    case OfDisconnect(d, CloseVictim) => Dropping(h, d, s)
    case OfOpener(o, CloseSession) => o in h.openers && h.openers[o].pc == WriteFailed(s)
    case _ => false
  }

  lemma StepCloses(h: Hub, a: Action, s: SessionId)
    requires Enabled(h, a)
    ensures SessionClosed(Next(h, a), s) <==> s in h.supervisors && (h.supervisors[s].closed || ClosesSession(h, a, s))
    ensures s in h.supervisors ==> s in Next(h, a).supervisors
  {
    match a
    case OfSupervisor(t, step) => SupervisorCloses(h, t, step, s);
    case OfDisconnect(_, _) =>
    case OfOpener(o, step) => OpenerCloses(h, o, step, s);
    case OfRelay(r, step) => RelayKeepsSupervisors(h, r, step);
  }

  lemma SupervisorCloses(h: Hub, t: SessionId, step: SupervisorStep, s: SessionId)
    requires SupervisorCan(h, t, step)
    ensures SessionClosed(SupervisorNext(h, t, step), s) <==>
              s in h.supervisors && (h.supervisors[s].closed || ClosesSession(h, OfSupervisor(t, step), s))
    ensures s in h.supervisors ==> s in SupervisorNext(h, t, step).supervisors
  {
  }

  lemma OpenerCloses(h: Hub, o: OpenerId, step: OpenerStep, s: SessionId)
    requires OpenerCan(h, o, step)
    ensures SessionClosed(OpenerNext(h, o, step), s) <==>
              s in h.supervisors && (h.supervisors[s].closed || ClosesSession(h, OfOpener(o, step), s))
    ensures s in h.supervisors ==> s in OpenerNext(h, o, step).supervisors
  {
  }

  lemma RelayKeepsSupervisors(h: Hub, r: RelayId, step: RelayStep)
    requires RelayCan(h, r, step)
    ensures RelayNext(h, r, step).supervisors == h.supervisors
  {
  }

  /** Closing is idempotent and for good: a session is closed exactly when some step has closed it. */
  lemma {:induction false} ClosedIffClosed(states: seq<Hub>, actions: seq<Action>, k: nat, s: SessionId)
    requires IsRun(states, actions) && k < |states|
    ensures SessionClosed(states[k], s) <==>
              exists i | 0 <= i < k :: s in states[i].supervisors && ClosesSession(states[i], actions[i], s)
  {
    if k > 0 {
      ClosedIffClosed(states, actions, k - 1, s);
      assert StepAt(states, actions, k - 1);
      StepCloses(states[k - 1], actions[k - 1], s);
    }
  }

  // --- What an OpenChannel call returns ---

  /** The outcome the opener has decided on, if it has. */
  function Decided(pc: OpenerPc): Option<Outcome> {
    match pc
    case Cleanup(outcome) => Some(outcome)
    case Draining(error) => Some(Failed(error))
    case Closing(_, error) => Some(Failed(error))
    case Returned(outcome) => Some(outcome)
    case _ => None
  }

  /** The step at which the opener's select, its write or its lookup decides the outcome. */
  predicate Decides(h: Hub, a: Action, o: OpenerId, x: Outcome) {
    && a.OfOpener? && a.o == o && o in h.openers
    && match a.opener
       case Receive => h.openers[o].ready.Some? && x == Conn(h.openers[o].ready.value)
       case GiveUp(error) => x == Failed(error)
       case CloseSession => x == Failed(NotConnected)
       case Register => h.openers[o].sandbox !in h.sessions && x == Failed(NotConnected)
       case _ => false
  }

  lemma OpenerDecides(h: Hub, p: OpenerId, step: OpenerStep, o: OpenerId, x: Outcome)
    requires OpenerCan(h, p, step) && o in OpenerNext(h, p, step).openers
    ensures Decided(OpenerNext(h, p, step).openers[o].pc) == Some(x) <==>
              (o in h.openers && Decided(h.openers[o].pc) == Some(x)) || Decides(h, OfOpener(p, step), o, x)
  {
    if p != o {
      OpenerKeepsOtherPcs(h, p, step, o);
    }
  }

  lemma StepDecides(h: Hub, a: Action, o: OpenerId, x: Outcome)
    requires Enabled(h, a) && o in Next(h, a).openers
    ensures Decided(Next(h, a).openers[o].pc) == Some(x) <==>
              (o in h.openers && Decided(h.openers[o].pc) == Some(x)) || Decides(h, a, o, x)
  {
    if a.OfOpener? {
      OpenerDecides(h, a.o, a.opener, o, x);
    } else {
      OthersKeepPc(h, a, o);
    }
  }

  /** Every outcome has its step: Conn(c) exactly if the opener received c, a failure exactly if the sandbox had no
      session, the message could not be written, or the opener gave up with that error. */
  lemma {:induction false} OutcomeIffDecided(states: seq<Hub>, actions: seq<Action>, k: nat, o: OpenerId, x: Outcome)
    requires IsRun(states, actions) && k < |states| && o in states[k].openers
    ensures Decided(states[k].openers[o].pc) == Some(x) <==>
              exists i | 0 <= i < k :: Decides(states[i], actions[i], o, x)
  {
    assert k > 0 && StepAt(states, actions, k - 1);
    StepDecides(states[k - 1], actions[k - 1], o, x);
    if o in states[k - 1].openers {
      OutcomeIffDecided(states, actions, k - 1, o, x);
    } else {
      NotYetDecided(states, actions, k - 1, o, x);
    }
  }

  lemma {:induction false} NotYetDecided(states: seq<Hub>, actions: seq<Action>, k: nat, o: OpenerId, x: Outcome)
    requires IsRun(states, actions) && k < |states| && o !in states[k].openers
    ensures forall i | 0 <= i < k :: !Decides(states[i], actions[i], o, x)
  {
    if k > 0 {
      assert StepAt(states, actions, k - 1);
      OpenersStay(states[k - 1], actions[k - 1], o);
      NotYetDecided(states, actions, k - 1, o, x);
    }
  }

  lemma OpenerStays(h: Hub, p: OpenerId, step: OpenerStep, o: OpenerId)
    requires OpenerCan(h, p, step)
    ensures o in h.openers ==> o in OpenerNext(h, p, step).openers
  {
  }

  lemma RelayKeepsOpeners(h: Hub, r: RelayId, step: RelayStep, o: OpenerId)
    requires RelayCan(h, r, step)
    ensures var k := RelayNext(h, r, step);
            && (o in k.openers <==> o in h.openers)
            && (o in h.openers ==> k.openers[o] == h.openers[o].(ready := k.openers[o].ready))
  {
  }

  lemma OpenersStay(h: Hub, a: Action, o: OpenerId)
    requires Enabled(h, a)
    ensures o in h.openers ==> o in Next(h, a).openers
  {
    match a
    case OfSupervisor(s, step) => SupervisorStepFrame(h, s, step);
    case OfDisconnect(_, _) =>
    case OfOpener(p, step) => OpenerStays(h, p, step, o);
    case OfRelay(r, step) => RelayKeepsOpeners(h, r, step, o);
  }

  /** Receiving takes the stream out of the buffer and makes it the opener's. */
  lemma ReceiveDelivers(states: seq<Hub>, actions: seq<Action>, k: nat, o: OpenerId)
    requires IsRun(states, actions) && k < |actions| && actions[k] == OfOpener(o, Receive)
    ensures o in states[k].openers && o in states[k + 1].openers && states[k].openers[o].ready.Some?
    ensures Taken(states[k + 1].openers[o].pc) == states[k].openers[o].ready
    ensures states[k + 1].openers[o].ready.None?
  {
    assert StepAt(states, actions, k);
  }

  /** An OpenChannel call returns stream c exactly when it received c at some step. */
  lemma ReturnsWhatItReceived(states: seq<Hub>, actions: seq<Action>, k: nat, o: OpenerId, c: RelayId)
    requires IsRun(states, actions) && k < |states| && o in states[k].openers && states[k].openers[o].pc.Returned?
    ensures states[k].openers[o].pc == Returned(Conn(c)) <==>
              exists i | 0 <= i < k :: actions[i] == OfOpener(o, Receive) && Buffers(states[i], c, o)
  {
    OutcomeIffDecided(states, actions, k, o, Conn(c));
  }

  /** An opener that waits has written its message, and one about to close its session could not write it. */
  lemma FindWrite(states: seq<Hub>, actions: seq<Action>, k: nat, o: OpenerId) returns (i: nat)
    requires IsRun(states, actions) && k < |states| && o in states[k].openers
    requires states[k].openers[o].pc.Waiting? || states[k].openers[o].pc.WriteFailed?
    ensures i < k && actions[i] == OfOpener(o, Write(states[k].openers[o].pc.Waiting?))
    ensures o in states[i].openers && states[i].openers[o].pc == Registered(states[k].openers[o].pc.session)
  {
    i := FindEntryToPc(states, actions, k, o);
  }

  /** The session an opener deals with is the one its sandbox had when the opener registered. */
  lemma FindRegister(states: seq<Hub>, actions: seq<Action>, k: nat, o: OpenerId) returns (i: nat)
    requires IsRun(states, actions) && k < |states| && o in states[k].openers
    requires var pc := states[k].openers[o].pc; pc.Registered? || pc.Waiting? || pc.WriteFailed?
    ensures i < k && actions[i] == OfOpener(o, Register) && o in states[i].openers
    ensures Lookup(states[i].sessions, states[i].openers[o].sandbox) == Some(states[k].openers[o].pc.session)
  {
    var w := k;
    if !states[k].openers[o].pc.Registered? {
      w := FindWrite(states, actions, k, o);
    }
    i := FindOwnRegister(states, actions, w, o);
  }

  lemma FindOwnRegister(states: seq<Hub>, actions: seq<Action>, k: nat, o: OpenerId) returns (i: nat)
    requires IsRun(states, actions) && k < |states| && o in states[k].openers && states[k].openers[o].pc.Registered?
    ensures i < k && actions[i] == OfOpener(o, Register) && o in states[i].openers
    ensures Lookup(states[i].sessions, states[i].openers[o].sandbox) == Some(states[k].openers[o].pc.session)
  {
    i := FindEntryToPc(states, actions, k, o);
  }

  /** "Not connected" while waiting means that this session has been closed. */
  lemma NotConnectedMeansClosed(states: seq<Hub>, actions: seq<Action>, k: nat, o: OpenerId)
    requires IsRun(states, actions) && k < |actions| && actions[k] == OfOpener(o, GiveUp(NotConnected))
    ensures o in states[k].openers && states[k].openers[o].pc.Waiting?
    ensures SessionClosed(states[k], states[k].openers[o].pc.session)
  {
    assert StepAt(states, actions, k);
  }

  lemma StepAccepts(h: Hub, a: Action, r: RelayId)
    requires Enabled(h, a) && r in Next(h, a).relays && HasStream(Next(h, a).relays[r].pc)
    ensures r in h.relays && (HasStream(h.relays[r].pc) || a == OfRelay(r, Accept(true)))
  {
    if a.OfRelay? && a.r == r {
      RelayAccepts(h, r, a.relay);
    } else {
      OthersKeepRelay(h, a, r);
    }
  }

  lemma RelayAccepts(h: Hub, r: RelayId, step: RelayStep)
    requires RelayCan(h, r, step) && r in RelayNext(h, r, step).relays && HasStream(RelayNext(h, r, step).relays[r].pc)
    ensures r in h.relays && (HasStream(h.relays[r].pc) || step == Accept(true))
  {
  }

  /** A relay call has a stream only if its accept succeeded. */
  lemma {:induction false} FindAccept(states: seq<Hub>, actions: seq<Action>, k: nat, r: RelayId) returns (i: nat)
    requires IsRun(states, actions) && k < |states| && r in states[k].relays && HasStream(states[k].relays[r].pc)
    ensures i < k && actions[i] == OfRelay(r, Accept(true))
  {
    assert k > 0 && StepAt(states, actions, k - 1);
    StepAccepts(states[k - 1], actions[k - 1], r);
    if HasStream(states[k - 1].relays[r].pc) {
      i := FindAccept(states, actions, k - 1, r);
    } else {
      i := k - 1;
    }
  }

  // --- Names ---

  lemma OpenerNames(h: Hub, p: OpenerId, step: OpenerStep, o: OpenerId)
    requires OpenerCan(h, p, step) && o in OpenerNext(h, p, step).openers
    ensures var me := OpenerNext(h, p, step).openers[o];
            if o in h.openers then me.sandbox == h.openers[o].sandbox && me.channel == h.openers[o].channel
            else p == o && step == Begin(me.sandbox, me.channel)
  {
  }

  lemma StepNamesOpener(h: Hub, a: Action, o: OpenerId)
    requires Enabled(h, a) && o in Next(h, a).openers
    ensures var me := Next(h, a).openers[o];
            if o in h.openers then me.sandbox == h.openers[o].sandbox && me.channel == h.openers[o].channel
            else a == OfOpener(o, Begin(me.sandbox, me.channel))
  {
    match a
    case OfSupervisor(s, step) => SupervisorStepFrame(h, s, step);
    case OfDisconnect(_, _) =>
    case OfOpener(p, step) => OpenerNames(h, p, step, o);
    case OfRelay(r, step) => RelayKeepsOpeners(h, r, step, o);
  }

  /** An opener keeps the sandbox and the channel it began with. */
  lemma {:induction false} FindBegin(states: seq<Hub>, actions: seq<Action>, k: nat, o: OpenerId) returns (i: nat)
    requires IsRun(states, actions) && k < |states| && o in states[k].openers
    ensures i < k && actions[i] == OfOpener(o, Begin(states[k].openers[o].sandbox, states[k].openers[o].channel))
  {
    assert k > 0 && StepAt(states, actions, k - 1);
    StepNamesOpener(states[k - 1], actions[k - 1], o);
    if o in states[k - 1].openers {
      i := FindBegin(states, actions, k - 1, o);
    } else {
      i := k - 1;
    }
  }

  lemma RelayNames(h: Hub, r: RelayId, step: RelayStep)
    requires RelayCan(h, r, step)
    ensures var k := RelayNext(h, r, step);
            && r in k.relays
            && var me := k.relays[r];
               if r in h.relays then me.sandbox == h.relays[r].sandbox && me.channel == h.relays[r].channel
               else step == Dial(me.sandbox, me.channel)
  {
  }

  lemma StepNamesRelay(h: Hub, a: Action, r: RelayId)
    requires Enabled(h, a) && r in Next(h, a).relays
    ensures var me := Next(h, a).relays[r];
            if r in h.relays then me.sandbox == h.relays[r].sandbox && me.channel == h.relays[r].channel
            else a == OfRelay(r, Dial(me.sandbox, me.channel))
  {
    if a.OfRelay? && a.r == r {
      RelayNames(h, r, a.relay);
    } else {
      OthersKeepRelay(h, a, r);
    }
  }

  /** A relay call keeps the sandbox and the channel it dialled. */
  lemma {:induction false} FindDial(states: seq<Hub>, actions: seq<Action>, k: nat, r: RelayId) returns (i: nat)
    requires IsRun(states, actions) && k < |states| && r in states[k].relays
    ensures i < k && actions[i] == OfRelay(r, Dial(states[k].relays[r].sandbox, states[k].relays[r].channel))
  {
    assert k > 0 && StepAt(states, actions, k - 1);
    StepNamesRelay(states[k - 1], actions[k - 1], r);
    if r in states[k - 1].relays {
      i := FindDial(states, actions, k - 1, r);
    } else {
      i := k - 1;
    }
  }

  lemma SupervisorNames(h: Hub, t: SessionId, step: SupervisorStep, s: SessionId)
    requires SupervisorCan(h, t, step) && s in SupervisorNext(h, t, step).supervisors
    ensures var me := SupervisorNext(h, t, step).supervisors[s];
            if s in h.supervisors then me.sandbox == h.supervisors[s].sandbox
            else t == s && step == Arrive(me.sandbox) && me.pc.Accepted? && !me.closed
  {
  }

  lemma OpenerNamesNoSession(h: Hub, o: OpenerId, step: OpenerStep, s: SessionId)
    requires OpenerCan(h, o, step) && s in OpenerNext(h, o, step).supervisors
    ensures s in h.supervisors && OpenerNext(h, o, step).supervisors[s].sandbox == h.supervisors[s].sandbox
  {
  }

  lemma StepNamesSession(h: Hub, a: Action, s: SessionId)
    requires Enabled(h, a) && s in Next(h, a).supervisors
    ensures var me := Next(h, a).supervisors[s];
            if s in h.supervisors then me.sandbox == h.supervisors[s].sandbox
            else a == OfSupervisor(s, Arrive(me.sandbox)) && me.pc.Accepted? && !me.closed
  {
    match a
    case OfSupervisor(t, step) => SupervisorNames(h, t, step, s);
    case OfDisconnect(_, _) =>
    case OfOpener(o, step) => OpenerNamesNoSession(h, o, step, s);
    case OfRelay(r, step) => RelayKeepsSupervisors(h, r, step);
  }

  /** A session keeps the sandbox its supervisor was authenticated for. */
  lemma {:induction false} FindArrive(states: seq<Hub>, actions: seq<Action>, k: nat, s: SessionId) returns (i: nat)
    requires IsRun(states, actions) && k < |states| && s in states[k].supervisors
    ensures i < k && actions[i] == OfSupervisor(s, Arrive(states[k].supervisors[s].sandbox))
  {
    assert k > 0 && StepAt(states, actions, k - 1);
    StepNamesSession(states[k - 1], actions[k - 1], s);
    if s in states[k - 1].supervisors {
      i := FindArrive(states, actions, k - 1, s);
    } else {
      i := k - 1;
    }
  }

  // --- No thread is ever stuck ---

  /** In every reachable state an OpenChannel call that has not returned has a next step, and its waiting is open to a
      stream, a timeout, a cancellation and the end of its session. */
  lemma OpenerIsNotStuck(states: seq<Hub>, actions: seq<Action>, k: nat, o: OpenerId)
    requires IsRun(states, actions) && k < |states| && o in states[k].openers
    ensures var h, me := states[k], states[k].openers[o];
            match me.pc
            case Fresh => OpenerCan(h, o, Register)
            case Registered(_) => OpenerCan(h, o, Write(true)) && OpenerCan(h, o, Write(false))
            case WriteFailed(_) => OpenerCan(h, o, CloseSession)
            case Waiting(s) =>
              && OpenerCan(h, o, GiveUp(OpenTimeout)) && OpenerCan(h, o, GiveUp(Cancelled))
              && (SessionClosed(h, s) ==> OpenerCan(h, o, GiveUp(NotConnected)))
              && (me.ready.Some? ==> OpenerCan(h, o, Receive))
            case Cleanup(_) => OpenerCan(h, o, Remove)
            case Draining(_) => OpenerCan(h, o, Drain)
            case Closing(_, _) => OpenerCan(h, o, CloseDrained)
            case Returned(_) => true
  {
  }

  /** A ServeRelay call that has not ended has a next step; in particular its send never waits. */
  lemma RelayIsNotStuck(states: seq<Hub>, actions: seq<Action>, k: nat, r: RelayId)
    requires IsRun(states, actions) && k < |states| && r in states[k].relays
    ensures var h := states[k];
            match h.relays[r].pc
            case Arrived => RelayCan(h, r, Claim)
            case Claimed(_) => RelayCan(h, r, Accept(true)) && RelayCan(h, r, Accept(false))
            case Holding(o) => RelayCan(h, r, Send) && SentTo(RelayNext(h, r, Send), r, o)
            case Full(_) => false
            case _ => true
  {
    SendNeverBlocked(states, actions, k, r);
  }

  /** Nor is a ServeSupervisor or a Disconnect call, and a reader may see its stream end at any time. */
  lemma SupervisorIsNotStuck(h: Hub, s: SessionId, d: DisconnectId)
    ensures s in h.supervisors ==>
              match h.supervisors[s].pc
              case Accepted => SupervisorCan(h, s, Swap)
              case Swapped(_) => SupervisorCan(h, s, ClosePrev)
              case Serving => SupervisorCan(h, s, Leave) && SupervisorCan(h, s, ReaderClose)
              case Leaving => SupervisorCan(h, s, Unlink) && SupervisorCan(h, s, ReaderClose)
              case Unlinked => SupervisorCan(h, s, CloseSelf) && SupervisorCan(h, s, ReaderClose)
              case Ended => true
    ensures d in h.disconnects && h.disconnects[d].Disconnecting? ==> DisconnectCan(h, d, CloseVictim)
  {
  }

  /**
   End to end: a stream that an OpenChannel call returned was dialled with exactly the sandbox and channel that call
   began with.
   */
  lemma ReturnedStreamWasDialled(states: seq<Hub>, actions: seq<Action>, k: nat, o: OpenerId, c: RelayId)
      returns (begin: nat, dial: nat, sandbox: string, channel: string)
    requires IsRun(states, actions) && k < |states| && o in states[k].openers
    requires states[k].openers[o].pc == Returned(Conn(c))
    ensures begin < k && dial < k
    ensures actions[begin] == OfOpener(o, Begin(sandbox, channel))
    ensures actions[dial] == OfRelay(c, Dial(sandbox, channel))
  {
    DeliveredToItsOwnOpener(states, actions, k, o, c);
    begin := FindBegin(states, actions, k, o);
    dial := FindDial(states, actions, k, c);
    sandbox, channel := states[k].openers[o].sandbox, states[k].openers[o].channel;
  }

  /** Deliveries do happen: in this run an opener waits, a relay call claims, accepts and sends, and the opener returns
      its stream. */
  lemma DeliveryHappens() returns (states: seq<Hub>, actions: seq<Action>)
    ensures IsRun(states, actions)
    ensures var h := states[|actions|]; 0 in h.openers && h.openers[0].pc == Returned(Conn(0)) && h.closedStreams == {}
  {
    var s, u;
    states, actions, s, u := WaitingRun();
    states, actions := HandedOver(states, actions, s, u);
    var relay := Relay("a", "x", Sent(0));
    states, actions := Extend(states, actions, OfOpener(0, Receive),
      Hub(s, map[], u, map[0 := Opener("a", "x", Cleanup(Conn(0)), None)], map[0 := relay], map[], {}));
    states, actions := Extend(states, actions, OfOpener(0, Remove),
      Hub(s, map[], u, map[0 := Opener("a", "x", Returned(Conn(0)), None)], map[0 := relay], map[], {}));
  }

  /** A supervisor reconnects: the new session replaces the old one, which is closed and cleans up without touching its
      successor. */
  lemma ReplacementHappens() returns (states: seq<Hub>, actions: seq<Action>)
    ensures IsRun(states, actions)
    ensures states[|actions|] == OnlySessions(map["a" := 1],
      map[0 := Supervisor("a", Ended, true), 1 := Supervisor("a", Serving, false)], map[])
  {
    states, actions := Replaced();
    var u := map[0 := Supervisor("a", Serving, true), 1 := Supervisor("a", Serving, false)];
    states, actions := Extend(states, actions, OfSupervisor(0, Leave), OnlySessions(map["a" := 1],
      u[0 := Supervisor("a", Leaving, true)], map[]));
    states, actions := Extend(states, actions, OfSupervisor(0, Unlink), OnlySessions(map["a" := 1],
      u[0 := Supervisor("a", Unlinked, true)], map[]));
    states, actions := Extend(states, actions, OfSupervisor(0, CloseSelf), OnlySessions(map["a" := 1],
      u[0 := Supervisor("a", Ended, true)], map[]));
  }

  /** Then a Disconnect takes the successor out and closes it. */
  lemma DisconnectHappens() returns (states: seq<Hub>, actions: seq<Action>)
    ensures IsRun(states, actions)
    ensures states[|actions|] == OnlySessions(map[],
      map[0 := Supervisor("a", Ended, true), 1 := Supervisor("a", Serving, true)], map[0 := Disconnected])
  {
    states, actions := ReplacementHappens();
    var u := map[0 := Supervisor("a", Ended, true), 1 := Supervisor("a", Serving, false)];
    states, actions := Extend(states, actions, OfDisconnect(0, Take("a")), OnlySessions(map[], u,
      map[0 := Disconnecting("a", Some(1))]));
    states, actions := Extend(states, actions, OfDisconnect(0, CloseVictim), OnlySessions(map[],
      u[1 := Supervisor("a", Serving, true)], map[0 := Disconnected]));
  }

  function OnlySessions(sessions: map<string, SessionId>, supervisors: map<SessionId, Supervisor>,
                        disconnects: map<DisconnectId, Disconnect>): Hub {
    Hub(sessions, map[], supervisors, map[], map[], disconnects, {})
  }

  lemma Replaced() returns (states: seq<Hub>, actions: seq<Action>)
    ensures IsRun(states, actions)
    ensures states[|actions|] == OnlySessions(map["a" := 1],
      map[0 := Supervisor("a", Serving, true), 1 := Supervisor("a", Serving, false)], map[])
  {
    states, actions := [EMPTY_HUB], [];
    var old' := Supervisor("a", Accepted, false);
    states, actions := Extend(states, actions, OfSupervisor(0, Arrive("a")), OnlySessions(map[],
      map[0 := old'], map[]));
    states, actions := Extend(states, actions, OfSupervisor(0, Swap), OnlySessions(map["a" := 0],
      map[0 := old'.(pc := Swapped(None))], map[]));
    states, actions := Extend(states, actions, OfSupervisor(0, ClosePrev), OnlySessions(map["a" := 0],
      map[0 := old'.(pc := Serving)], map[]));
    states, actions := Extend(states, actions, OfSupervisor(1, Arrive("a")), OnlySessions(map["a" := 0],
      map[0 := old'.(pc := Serving), 1 := old'], map[]));
    states, actions := Extend(states, actions, OfSupervisor(1, Swap), OnlySessions(map["a" := 1],
      map[0 := old'.(pc := Serving), 1 := old'.(pc := Swapped(Some(0)))], map[]));
    states, actions := Extend(states, actions, OfSupervisor(1, ClosePrev), OnlySessions(map["a" := 1],
      map[0 := old'.(pc := Serving, closed := true), 1 := old'.(pc := Serving)], map[]));
  }

  lemma HandedOver(before: seq<Hub>, past: seq<Action>, s: map<string, SessionId>, u: map<SessionId, Supervisor>)
      returns (states: seq<Hub>, actions: seq<Action>)
    requires IsRun(before, past)
    requires before[|past|] ==
      Hub(s, map["x" := 0], u, map[0 := Opener("a", "x", Waiting(0), None)], map[], map[], {})
    ensures IsRun(states, actions)
    ensures states[|actions|] == Hub(s, map[], u, map[0 := Opener("a", "x", Waiting(0), Some(0))],
                                     map[0 := Relay("a", "x", Sent(0))], map[], {})
  {
    var me, relay := Opener("a", "x", Waiting(0), None), Relay("a", "x", Claimed(0));
    states, actions := Extend(before, past, OfRelay(0, Dial("a", "x")),
      Hub(s, map["x" := 0], u, map[0 := me], map[0 := relay.(pc := Arrived)], map[], {}));
    states, actions := Extend(states, actions, OfRelay(0, Claim),
      Hub(s, map[], u, map[0 := me], map[0 := relay], map[], {}));
    states, actions := Extend(states, actions, OfRelay(0, Accept(true)),
      Hub(s, map[], u, map[0 := me], map[0 := relay.(pc := Holding(0))], map[], {}));
    states, actions := Extend(states, actions, OfRelay(0, Send),
      Hub(s, map[], u, map[0 := me.(ready := Some(0))], map[0 := relay.(pc := Sent(0))], map[], {}));
  }
}
