/** Pairing of data streams with openers: one claim per channel, one place per stream. */
module RelayPairing {
  import opened Options
  import opened RelayHub

  /** The opener a relay call has claimed, at any later point of that call. */
  function Target(pc: RelayPc): Option<OpenerId> {
    if pc.Arrived? || pc.Rejected? then None else Some(pc.target)
  }

  /** The stream an opener has taken out of its own ready channel and still answers for. */
  function Taken(pc: OpenerPc): Option<RelayId> {
    match pc
    case Cleanup(Conn(c)) => Some(c)
    case Returned(Conn(c)) => Some(c)
    case Closing(c, _) => Some(c)
    case _ => None
  }

  /** The opener has registered its channel and its deferred delete has not run. */
  predicate InTable(pc: OpenerPc) {
    pc.Registered? || pc.WriteFailed? || pc.Waiting? || pc.Cleanup?
  }

  predicate HasStream(pc: RelayPc) {
    pc.Holding? || pc.Sent? || pc.Full? || pc.Dropped?
  }

  ghost predicate Targets(h: Hub, r: RelayId, o: OpenerId) {
    r in h.relays && Target(h.relays[r].pc) == Some(o)
  }

  // --- The inductive invariant, clause by clause ---

  ghost predicate EntriesOpen(h: Hub) {
    forall ch | ch in h.pending ::
      && h.pending[ch] in h.openers
      && var opener := h.openers[h.pending[ch]];
         opener.channel == ch && InTable(opener.pc)
  }

  ghost predicate EntriesUnclaimed(h: Hub) {
    forall ch, r | ch in h.pending && r in h.relays :: !Targets(h, r, h.pending[ch])
  }

  ghost predicate ChannelsDistinct(h: Hub) {
    forall p, q | p in h.openers && q in h.openers && h.openers[p].channel == h.openers[q].channel :: p == q
  }

  ghost predicate ClaimsMatch(h: Hub) {
    forall r, o | Targets(h, r, o) ::
      && o in h.openers && !h.openers[o].pc.Fresh?
      && h.openers[o].sandbox == h.relays[r].sandbox && h.openers[o].channel == h.relays[r].channel
  }

  ghost predicate ClaimsUnique(h: Hub) {
    forall r, q, o | Targets(h, r, o) && Targets(h, q, o) :: r == q
  }

  ghost predicate BuffersSent(h: Hub) {
    forall o | o in h.openers && h.openers[o].ready.Some? ::
      && h.openers[o].ready.value in h.relays
      && h.relays[h.openers[o].ready.value].pc == Sent(o)
  }

  ghost predicate TakenSent(h: Hub) {
    forall o | o in h.openers && Taken(h.openers[o].pc).Some? ::
      && Taken(h.openers[o].pc).value in h.relays
      && h.relays[Taken(h.openers[o].pc).value].pc == Sent(o)
      && h.openers[o].ready.None?
  }

  ghost predicate ClosedSent(h: Hub) {
    forall c | c in h.closedStreams ::
      && c in h.relays && h.relays[c].pc.Sent?
      && var o := h.relays[c].pc.target;
         o in h.openers && h.openers[o].ready.None? && h.openers[o].pc.Returned?
         && h.openers[o].pc.outcome.Failed?
  }

  ghost predicate SentPlaced(h: Hub) {
    forall r | r in h.relays && h.relays[r].pc.Sent? ::
      var o := h.relays[r].pc.target;
      o in h.openers && (h.openers[o].ready == Some(r) || Taken(h.openers[o].pc) == Some(r) || r in h.closedStreams)
  }

  ghost predicate NeverFull(h: Hub) {
    forall r | r in h.relays :: !h.relays[r].pc.Full? && !h.relays[r].pc.Dropped?
  }

  /** Claims: a pending entry is open and unclaimed; a claim is unique and matches sandbox and channel. */
  ghost predicate ClaimsOnce(h: Hub) {
    EntriesOpen(h) && EntriesUnclaimed(h) && ChannelsDistinct(h) && ClaimsMatch(h) && ClaimsUnique(h)
  }

  /** Streams: buffered, taken and closed streams are sent ones, and a sent stream is one of the three. */
  ghost predicate StreamsPlaced(h: Hub) {
    BuffersSent(h) && TakenSent(h) && ClosedSent(h) && SentPlaced(h) && NeverFull(h)
  }

  ghost predicate Paired(h: Hub) {
    ClaimsOnce(h) && StreamsPlaced(h)
  }

  // --- Steps that leave openers, relays and the pending table alone ---

  /** Supervisor and Disconnect threads do not touch what the invariant speaks of. */
  lemma FrameKeepsPaired(h: Hub, k: Hub)
    requires Paired(h)
    requires k.pending == h.pending && k.openers == h.openers && k.relays == h.relays
    requires k.closedStreams == h.closedStreams
    ensures Paired(k)
  {
    assert forall r, o :: Targets(k, r, o) <==> Targets(h, r, o);
  }

  // --- Opener steps ---

  lemma OpenerUpdateKeepsClaims(h: Hub, k: Hub, o: OpenerId, me: Opener)
    requires ClaimsOnce(h) && o in h.openers && k.relays == h.relays
    requires k.openers == h.openers[o := me]
    requires me.sandbox == h.openers[o].sandbox && me.channel == h.openers[o].channel && !me.pc.Fresh?
    requires k.pending == h.pending || k.pending == h.pending - {me.channel}
    requires me.channel in k.pending ==> InTable(me.pc)
    ensures ClaimsOnce(k)
  {
    assert forall r, p :: Targets(k, r, p) <==> Targets(h, r, p);
  }

  lemma OpenerUpdateKeepsStreams(h: Hub, k: Hub, o: OpenerId, me: Opener)
    requires StreamsPlaced(h) && o in h.openers && k.relays == h.relays
    requires k.openers == h.openers[o := me] && !h.openers[o].pc.Returned?
    requires me.ready.Some? ==> me.ready == h.openers[o].ready && Taken(me.pc).None?
    requires Taken(me.pc).Some? ==> Taken(me.pc) == Taken(h.openers[o].pc) || Taken(me.pc) == h.openers[o].ready
    requires forall c | h.openers[o].ready == Some(c) || Taken(h.openers[o].pc) == Some(c) ::
               me.ready == Some(c) || Taken(me.pc) == Some(c) || c in k.closedStreams
    requires k.closedStreams != h.closedStreams ==>
               && Taken(h.openers[o].pc).Some? && k.closedStreams == h.closedStreams + {Taken(h.openers[o].pc).value}
               && me.pc.Returned? && me.pc.outcome.Failed? && me.ready.None?
    ensures StreamsPlaced(k)
  {
  }

  lemma BeginKeepsPaired(h: Hub, o: OpenerId, step: OpenerStep)
    requires Paired(h) && OpenerCan(h, o, step) && step.Begin?
    ensures Paired(OpenerNext(h, o, step))
  {
    var k := OpenerNext(h, o, step);
    assert forall r, p :: Targets(k, r, p) <==> Targets(h, r, p);
  }

  lemma RegisterKeepsClaims(h: Hub, o: OpenerId)
    requires ClaimsOnce(h) && OpenerCan(h, o, Register) && h.openers[o].sandbox in h.sessions
    ensures ClaimsOnce(OpenerNext(h, o, Register))
  {
    var k := OpenerNext(h, o, Register);
    assert forall r, p :: Targets(k, r, p) <==> Targets(h, r, p);
  }

  /** The steps that move a stream: out of the buffer to the opener, or from the opener to the closed ones. */
  predicate MovesStream(step: OpenerStep) {
    step.Receive? || step.Drain? || step.CloseDrained?
  }

  lemma MoveKeepsStreams(h: Hub, o: OpenerId, step: OpenerStep)
    requires StreamsPlaced(h) && OpenerCan(h, o, step) && MovesStream(step)
    ensures StreamsPlaced(OpenerNext(h, o, step))
  {
    var k := OpenerNext(h, o, step);
    OpenerUpdateKeepsStreams(h, k, o, k.openers[o]);
  }

  lemma OpenerStepKeepsStreams(h: Hub, o: OpenerId, step: OpenerStep)
    requires StreamsPlaced(h) && OpenerCan(h, o, step) && !step.Begin?
    ensures StreamsPlaced(OpenerNext(h, o, step))
  {
    if MovesStream(step) {
      MoveKeepsStreams(h, o, step);
    } else {
      var k := OpenerNext(h, o, step);
      OpenerUpdateKeepsStreams(h, k, o, k.openers[o]);
    }
  }

  lemma OpenerStepKeepsClaims(h: Hub, o: OpenerId, step: OpenerStep)
    requires ClaimsOnce(h) && OpenerCan(h, o, step) && !step.Begin?
    ensures ClaimsOnce(OpenerNext(h, o, step))
  {
    if step.Register? && h.openers[o].sandbox in h.sessions {
      RegisterKeepsClaims(h, o);
    } else {
      var k := OpenerNext(h, o, step);
      OpenerUpdateKeepsClaims(h, k, o, k.openers[o]);
    }
  }

  // --- Relay steps ---

  lemma DialKeepsPaired(h: Hub, r: RelayId, sandbox: string, channel: string)
    requires Paired(h) && r !in h.relays
    ensures Paired(h.(relays := h.relays[r := Relay(sandbox, channel, Arrived)]))
  {
    var k := h.(relays := h.relays[r := Relay(sandbox, channel, Arrived)]);
    assert forall q, o :: Targets(k, q, o) <==> Targets(h, q, o);
  }

  /** A relay that moves on with the claim it has; at most a ready channel changes beside it. */
  lemma RelayUpdateKeepsClaims(h: Hub, k: Hub, r: RelayId, me: Relay)
    requires ClaimsOnce(h) && r in h.relays && k.relays == h.relays[r := me]
    requires me == h.relays[r].(pc := me.pc) && Target(me.pc) == Target(h.relays[r].pc)
    requires k.pending == h.pending && k.openers.Keys == h.openers.Keys
    requires forall o | o in h.openers :: k.openers[o] == h.openers[o].(ready := k.openers[o].ready)
    ensures ClaimsOnce(k)
  {
    assert forall q, o :: Targets(k, q, o) <==> Targets(h, q, o);
  }

  lemma RelayUpdateKeepsStreams(h: Hub, k: Hub, r: RelayId, me: Relay)
    requires StreamsPlaced(h) && r in h.relays && k.relays == h.relays[r := me]
    requires !h.relays[r].pc.Sent? && !me.pc.Sent? && !me.pc.Full? && !me.pc.Dropped?
    requires k.openers == h.openers && k.closedStreams == h.closedStreams
    ensures StreamsPlaced(k)
  {
  }

  /** The claim takes the only entry of its opener out of the table. */
  lemma ClaimKeepsClaims(h: Hub, k: Hub, r: RelayId, o: OpenerId)
    requires ClaimsOnce(h) && r in h.relays && h.relays[r].pc.Arrived? && Claimable(h, h.relays[r]) == Some(o)
    requires k.openers == h.openers && k.pending == h.pending - {h.relays[r].channel}
    requires k.relays == h.relays[r := h.relays[r].(pc := Claimed(o))]
    ensures ClaimsOnce(k)
  {
    assert forall q, p | q != r :: Targets(k, q, p) <==> Targets(h, q, p);
    assert h.pending[h.relays[r].channel] == o;
    assert forall q | q in h.relays :: !Targets(h, q, o);
  }

  /** A relay that has claimed but not sent finds the ready channel empty and its opener empty-handed. */
  lemma SendFindsBufferEmpty(h: Hub, r: RelayId)
    requires Paired(h) && r in h.relays && (h.relays[r].pc.Claimed? || h.relays[r].pc.Holding?)
    ensures h.relays[r].pc.target in h.openers
    ensures h.openers[h.relays[r].pc.target].ready.None?
    ensures Taken(h.openers[h.relays[r].pc.target].pc).None?
    ensures forall c | c in h.closedStreams :: c in h.relays && h.relays[c].pc != Sent(h.relays[r].pc.target)
  {
    var o := h.relays[r].pc.target;
    assert Targets(h, r, o);
    forall q | q in h.relays && h.relays[q].pc == Sent(o) ensures false {
      assert Targets(h, q, o);
    }
  }

  lemma SendKeepsStreams(h: Hub, k: Hub, r: RelayId, o: OpenerId)
    requires StreamsPlaced(h) && r in h.relays && h.relays[r].pc == Holding(o) && o in h.openers
    requires h.openers[o].ready.None? && Taken(h.openers[o].pc).None?
    requires forall c | c in h.closedStreams :: c in h.relays && h.relays[c].pc != Sent(o)
    requires k.openers == h.openers[o := h.openers[o].(ready := Some(r))]
    requires k.relays == h.relays[r := h.relays[r].(pc := Sent(o))] && k.closedStreams == h.closedStreams
    ensures StreamsPlaced(k)
  {
  }

  lemma SendKeepsPaired(h: Hub, r: RelayId)
    requires Paired(h) && RelayCan(h, r, Send)
    ensures Paired(RelayNext(h, r, Send))
  {
    SendFindsBufferEmpty(h, r);
    var k := RelayNext(h, r, Send);
    SendKeepsStreams(h, k, r, h.relays[r].pc.target);
    RelayUpdateKeepsClaims(h, k, r, k.relays[r]);
  }

  lemma ClaimKeepsPaired(h: Hub, r: RelayId)
    requires Paired(h) && RelayCan(h, r, Claim)
    ensures Paired(RelayNext(h, r, Claim))
  {
    var k := RelayNext(h, r, Claim);
    RelayUpdateKeepsStreams(h, k, r, k.relays[r]);
    if Claimable(h, h.relays[r]).Some? {
      ClaimKeepsClaims(h, k, r, Claimable(h, h.relays[r]).value);
    } else {
      RelayUpdateKeepsClaims(h, k, r, k.relays[r]);
    }
  }

  lemma AcceptKeepsPaired(h: Hub, r: RelayId, ok: bool)
    requires Paired(h) && RelayCan(h, r, Accept(ok))
    ensures Paired(RelayNext(h, r, Accept(ok)))
  {
    var k := RelayNext(h, r, Accept(ok));
    RelayUpdateKeepsStreams(h, k, r, k.relays[r]);
    RelayUpdateKeepsClaims(h, k, r, k.relays[r]);
  }

  lemma RelayStepKeepsPaired(h: Hub, r: RelayId, step: RelayStep)
    requires Paired(h) && RelayCan(h, r, step)
    ensures Paired(RelayNext(h, r, step))
  {
    match step
    case Dial(sandbox, channel) => DialKeepsPaired(h, r, sandbox, channel);
    case Claim => ClaimKeepsPaired(h, r);
    case Accept(ok) => AcceptKeepsPaired(h, r, ok);
    case Send => SendKeepsPaired(h, r);
    case CloseFull => assert false;
  }

  lemma SupervisorStepFrame(h: Hub, s: SessionId, step: SupervisorStep)
    requires SupervisorCan(h, s, step)
    ensures var k := SupervisorNext(h, s, step);
            k == h.(sessions := k.sessions, supervisors := k.supervisors)
  {
  }

  lemma OpenerStepKeepsPaired(h: Hub, o: OpenerId, step: OpenerStep)
    requires Paired(h) && OpenerCan(h, o, step)
    ensures Paired(OpenerNext(h, o, step))
  {
    if step.Begin? {
      BeginKeepsPaired(h, o, step);
    } else {
      OpenerStepKeepsStreams(h, o, step);
      OpenerStepKeepsClaims(h, o, step);
    }
  }

  /** Every enabled action keeps the pairing invariant. */
  lemma StepKeepsPaired(h: Hub, a: Action)
    requires Paired(h) && Enabled(h, a)
    ensures Paired(Next(h, a))
  {
    match a
    case OfOpener(o, step) => OpenerStepKeepsPaired(h, o, step);
    case OfRelay(r, step) => RelayStepKeepsPaired(h, r, step);
    case OfSupervisor(s, step) =>
      SupervisorStepFrame(h, s, step);
      FrameKeepsPaired(h, Next(h, a));
    case OfDisconnect(_, _) => FrameKeepsPaired(h, Next(h, a));
  }
}
