/**
 The supervisor relay hub (internal/sshrelay/hub.go) as a transition system.

 Four kinds of threads run against the two maps `sessions` and `pending`:
 ServeSupervisor, Disconnect, OpenChannel and ServeRelay. One action below is
 one critical section (lock to unlock), one channel operation or one close; a
 thread may be suspended between any two of them.

 Objects are named after the call that makes them: a session after its
 ServeSupervisor call, a `pending` record (and its capacity-1 `ready` channel)
 after its OpenChannel call, a data stream after its ServeRelay call.
 */
module RelayHub {
  import opened Options

  type SessionId = nat
  type OpenerId = nat
  type RelayId = nat
  type DisconnectId = nat

  /** Where a ServeSupervisor call stands. */
  datatype SupervisorPc =
    | Accepted                         // session built, not yet registered
    | Swapped(prev: Option<SessionId>) // registered, about to close the session it replaced
    | Serving                          // reader goroutine and keepalive loop running
    | Leaving                          // loop left, deferred cleanup not yet run
    | Unlinked                         // cleanup section done, own session not yet closed
    | Ended

  datatype Supervisor = Supervisor(sandbox: string, pc: SupervisorPc, closed: bool)

  /** A Disconnect call after its critical section; `victim` is what it took out of the map. */
  datatype Disconnect = Disconnecting(sandbox: string, victim: Option<SessionId>) | Disconnected

  datatype OpenError = NotConnected | OpenTimeout | Cancelled

  datatype Outcome = Conn(stream: RelayId) | Failed(error: OpenError)

  /** Where an OpenChannel call stands. */
  datatype OpenerPc =
    | Fresh
    | Registered(session: SessionId)
    | WriteFailed(session: SessionId)
    | Waiting(session: SessionId)
    | Cleanup(outcome: Outcome)                    // deferred delete not yet run
    | Draining(error: OpenError)                   // entry deleted, buffer not yet drained
    | Closing(drained: RelayId, error: OpenError)  // drained a stream, not yet closed it
    | Returned(outcome: Outcome)

  datatype Opener = Opener(sandbox: string, channel: string, pc: OpenerPc, ready: Option<RelayId>)

  /** Where a ServeRelay call stands; from Holding on, its data stream has been accepted. */
  datatype RelayPc =
    | Arrived
    | Rejected
    | Claimed(target: OpenerId)
    | AcceptFailed(target: OpenerId)
    | Holding(target: OpenerId)
    | Sent(target: OpenerId)
    | Full(target: OpenerId)     // default branch of the send, stream not yet closed
    | Dropped(target: OpenerId)

  datatype Relay = Relay(sandbox: string, channel: string, pc: RelayPc)

  datatype Hub = Hub(
    sessions: map<string, SessionId>,
    pending: map<string, OpenerId>,
    supervisors: map<SessionId, Supervisor>,
    openers: map<OpenerId, Opener>,
    relays: map<RelayId, Relay>,
    disconnects: map<DisconnectId, Disconnect>,
    closedStreams: set<RelayId>)

  const EMPTY_HUB := Hub(map[], map[], map[], map[], map[], map[], {})

  /** Steps of a ServeSupervisor call; ReaderClose is its reader goroutine seeing a read error. */
  datatype SupervisorStep = Arrive(sandbox: string) | Swap | ClosePrev | Leave | Unlink | CloseSelf | ReaderClose

  /** Steps of a Disconnect call: its critical section, then the close. */
  datatype DisconnectStep = Take(sandbox: string) | CloseVictim

  datatype OpenerStep =
    | Begin(sandbox: string, channel: string)
    | Register
    | Write(ok: bool)
    | CloseSession
    | Receive
    | GiveUp(error: OpenError)
    | Remove
    | Drain
    | CloseDrained

  datatype RelayStep = Dial(sandbox: string, channel: string) | Claim | Accept(ok: bool) | Send | CloseFull

  datatype Action =
    | OfSupervisor(s: SessionId, supervisor: SupervisorStep)
    | OfDisconnect(d: DisconnectId, disconnect: DisconnectStep)
    | OfOpener(o: OpenerId, opener: OpenerStep)
    | OfRelay(r: RelayId, relay: RelayStep)

  predicate SupervisorCan(h: Hub, s: SessionId, step: SupervisorStep) {
    if step.Arrive? then s !in h.supervisors
    else
      && s in h.supervisors
      && var pc := h.supervisors[s].pc;
         match step
         case Arrive(_) => false
         case Swap => pc.Accepted?
         case ClosePrev => pc.Swapped?
         case Leave => pc.Serving?
         case Unlink => pc.Leaving?
         case CloseSelf => pc.Unlinked?
         case ReaderClose => !pc.Accepted? && !pc.Swapped?
  }

  predicate DisconnectCan(h: Hub, d: DisconnectId, step: DisconnectStep) {
    match step
    case Take(_) => d !in h.disconnects
    case CloseVictim => d in h.disconnects && h.disconnects[d].Disconnecting?
  }

  /** Channel ids come from 16 random bytes: an opener's id is one no earlier opener had. */
  predicate OpenerCan(h: Hub, o: OpenerId, step: OpenerStep) {
    if step.Begin? then
      o !in h.openers && forall p | p in h.openers :: h.openers[p].channel != step.channel
    else
      && o in h.openers
      && var pc := h.openers[o].pc;
         match step
         case Begin(_, _) => false
         case Register => pc.Fresh?
         case Write(_) => pc.Registered?
         case CloseSession => pc.WriteFailed?
         case Receive => pc.Waiting? && h.openers[o].ready.Some?
         case GiveUp(error) =>
           pc.Waiting? && (error.NotConnected? ==> SessionClosed(h, pc.session))
         case Remove => pc.Cleanup?
         case Drain => pc.Draining?
         case CloseDrained => pc.Closing?
  }

  predicate RelayCan(h: Hub, r: RelayId, step: RelayStep) {
    if step.Dial? then r !in h.relays
    else
      && r in h.relays
      && var pc := h.relays[r].pc;
         match step
         case Dial(_, _) => false
         case Claim => pc.Arrived?
         case Accept(_) => pc.Claimed?
         case Send => pc.Holding? && pc.target in h.openers
         case CloseFull => pc.Full?
  }

  predicate SessionClosed(h: Hub, s: SessionId) {
    s in h.supervisors && h.supervisors[s].closed
  }

  /** session.close: idempotent because of sync.Once. */
  function Closed(supervisors: map<SessionId, Supervisor>, s: SessionId): map<SessionId, Supervisor> {
    if s in supervisors then supervisors[s := supervisors[s].(closed := true)] else supervisors
  }

  function ClosedOptional(supervisors: map<SessionId, Supervisor>, s: Option<SessionId>): map<SessionId, Supervisor> {
    if s.Some? then Closed(supervisors, s.value) else supervisors
  }

  function Lookup(m: map<string, nat>, key: string): Option<nat> {
    if key in m then Some(m[key]) else None
  }

  function SupervisorNext(h: Hub, s: SessionId, step: SupervisorStep): Hub
    requires SupervisorCan(h, s, step)
  {
    match step
    case Arrive(sandbox) =>
      h.(supervisors := h.supervisors[s := Supervisor(sandbox, Accepted, false)])
    case Swap =>
      var me := h.supervisors[s];
      h.(sessions := h.sessions[me.sandbox := s],
         supervisors := h.supervisors[s := me.(pc := Swapped(Lookup(h.sessions, me.sandbox)))])
    case ClosePrev =>
      var closed := ClosedOptional(h.supervisors, h.supervisors[s].pc.prev);
      h.(supervisors := closed[s := closed[s].(pc := Serving)])
    case Leave => h.(supervisors := h.supervisors[s := h.supervisors[s].(pc := Leaving)])
    case Unlink =>
      var me := h.supervisors[s];
      h.(sessions := if Lookup(h.sessions, me.sandbox) == Some(s) then h.sessions - {me.sandbox} else h.sessions,
         supervisors := h.supervisors[s := me.(pc := Unlinked)])
    case CloseSelf => h.(supervisors := h.supervisors[s := h.supervisors[s].(pc := Ended, closed := true)])
    case ReaderClose => h.(supervisors := Closed(h.supervisors, s))
  }

  function DisconnectNext(h: Hub, d: DisconnectId, step: DisconnectStep): Hub
    requires DisconnectCan(h, d, step)
  {
    match step
    case Take(sandbox) =>
      h.(sessions := h.sessions - {sandbox},
         disconnects := h.disconnects[d := Disconnecting(sandbox, Lookup(h.sessions, sandbox))])
    case CloseVictim =>
      h.(supervisors := ClosedOptional(h.supervisors, h.disconnects[d].victim),
         disconnects := h.disconnects[d := Disconnected])
  }

  function OpenerNext(h: Hub, o: OpenerId, step: OpenerStep): Hub
    requires OpenerCan(h, o, step)
  {
    if step.Begin? then
      h.(openers := h.openers[o := Opener(step.sandbox, step.channel, Fresh, None)])
    else
      var me := h.openers[o];
      match step
      case Begin(_, _) => h
      case Register =>
        (match Lookup(h.sessions, me.sandbox)
         case None => h.(openers := h.openers[o := me.(pc := Returned(Failed(NotConnected)))])
         case Some(s) => h.(pending := h.pending[me.channel := o], openers := h.openers[o := me.(pc := Registered(s))]))
      case Write(ok) =>
        var s := me.pc.session;
        h.(openers := h.openers[o := me.(pc := if ok then Waiting(s) else WriteFailed(s))])
      case CloseSession =>
        h.(supervisors := Closed(h.supervisors, me.pc.session),
           openers := h.openers[o := me.(pc := Cleanup(Failed(NotConnected)))])
      case Receive => h.(openers := h.openers[o := me.(pc := Cleanup(Conn(me.ready.value)), ready := None)])
      case GiveUp(error) => h.(openers := h.openers[o := me.(pc := Cleanup(Failed(error)))])
      case Remove =>
        h.(pending := h.pending - {me.channel},
           openers := h.openers[o := me.(pc := if me.pc.outcome.Conn? then Returned(me.pc.outcome)
                                               else Draining(me.pc.outcome.error))])
      case Drain =>
        h.(openers := h.openers[o := if me.ready.Some?
                                     then me.(pc := Closing(me.ready.value, me.pc.error), ready := None)
                                     else me.(pc := Returned(Failed(me.pc.error)))])
      case CloseDrained =>
        h.(closedStreams := h.closedStreams + {me.pc.drained},
           openers := h.openers[o := me.(pc := Returned(Failed(me.pc.error)))])
  }

  function RelayNext(h: Hub, r: RelayId, step: RelayStep): Hub
    requires RelayCan(h, r, step)
  {
    if step.Dial? then
      h.(relays := h.relays[r := Relay(step.sandbox, step.channel, Arrived)])
    else
      var me := h.relays[r];
      match step
      case Dial(_, _) => h
      case Claim =>
        (match Claimable(h, me)
         case None => h.(relays := h.relays[r := me.(pc := Rejected)])
         case Some(o) => h.(pending := h.pending - {me.channel}, relays := h.relays[r := me.(pc := Claimed(o))]))
      case Accept(ok) =>
        h.(relays := h.relays[r := me.(pc := if ok then Holding(me.pc.target) else AcceptFailed(me.pc.target))])
      case Send =>
        var o := me.pc.target;
        if h.openers[o].ready.None?
        then h.(openers := h.openers[o := h.openers[o].(ready := Some(r))], relays := h.relays[r := me.(pc := Sent(o))])
        else h.(relays := h.relays[r := me.(pc := Full(o))])
      case CloseFull =>
        h.(closedStreams := h.closedStreams + {r}, relays := h.relays[r := me.(pc := Dropped(me.pc.target))])
  }

  /** The action is a possible next step of its thread. */
  predicate Enabled(h: Hub, a: Action) {
    match a
    case OfSupervisor(s, step) => SupervisorCan(h, s, step)
    case OfDisconnect(d, step) => DisconnectCan(h, d, step)
    case OfOpener(o, step) => OpenerCan(h, o, step)
    case OfRelay(r, step) => RelayCan(h, r, step)
  }

  /** The state after one enabled action. */
  function Next(h: Hub, a: Action): Hub
    requires Enabled(h, a)
  {
    match a
    case OfSupervisor(s, step) => SupervisorNext(h, s, step)
    case OfDisconnect(d, step) => DisconnectNext(h, d, step)
    case OfOpener(o, step) => OpenerNext(h, o, step)
    case OfRelay(r, step) => RelayNext(h, r, step)
  }

  /** The pending record ServeRelay may take: the entry of the channel, if its sandbox is the caller's. */
  function Claimable(h: Hub, relay: Relay): Option<OpenerId> {
    match Lookup(h.pending, relay.channel)
    case None => None
    case Some(o) =>
      if o in h.openers && h.openers[o].sandbox == relay.sandbox then Some(o) else None
  }

  /** A run: consecutive states joined by enabled actions, from the empty hub. */
  ghost predicate IsRun(states: seq<Hub>, actions: seq<Action>) {
    && |states| == |actions| + 1
    && states[0] == EMPTY_HUB
    && forall i | 0 <= i < |actions| :: StepAt(states, actions, i)
  }

  ghost predicate StepAt(states: seq<Hub>, actions: seq<Action>, i: nat)
    requires i < |actions| && |states| == |actions| + 1
  {
    Enabled(states[i], actions[i]) && states[i + 1] == Next(states[i], actions[i])
  }
}
