/** What the pairing invariant means over whole runs of the hub. */
module RelayRuns {
  import opened Options
  import opened RelayHub
  import opened RelayPairing

  lemma {:induction false} RunKeepsPaired(states: seq<Hub>, actions: seq<Action>, k: nat)
    requires IsRun(states, actions) && k < |states|
    ensures Paired(states[k])
  {
    if k > 0 {
      RunKeepsPaired(states, actions, k - 1);
      assert StepAt(states, actions, k - 1);
      StepKeepsPaired(states[k - 1], actions[k - 1]);
    }
  }

  // --- One claim per opener, no full buffer ---

  /** Step k is a ServeRelay claim that takes opener o's pending entry. */
  ghost predicate ClaimsAt(states: seq<Hub>, actions: seq<Action>, k: nat, r: RelayId, o: OpenerId)
    requires IsRun(states, actions)
  {
    && k < |actions| && actions[k] == OfRelay(r, Claim)
    && r in states[k].relays && Claimable(states[k], states[k].relays[r]) == Some(o)
  }

  /** A claim, a sent stream and an opener's identity are never undone; a left table is left for good. */
  ghost predicate Grows(h: Hub, k: Hub, r: RelayId, o: OpenerId) {
    && (Targets(h, r, o) ==> Targets(k, r, o))
    && (SentTo(h, r, o) ==> SentTo(k, r, o))
    && (SentTo(h, r, o) && !Buffers(h, r, o) ==> !Buffers(k, r, o))
    && (Left(h, o) ==> Left(k, o))
    && (Left(h, o) && Targets(k, r, o) ==> Targets(h, r, o))
  }

  ghost predicate SentTo(h: Hub, r: RelayId, o: OpenerId) {
    r in h.relays && h.relays[r].pc == Sent(o)
  }

  ghost predicate Buffers(h: Hub, r: RelayId, o: OpenerId) {
    o in h.openers && h.openers[o].ready == Some(r)
  }

  /** The opener's deferred delete has run (or it never registered). */
  ghost predicate Left(h: Hub, o: OpenerId) {
    o in h.openers && (h.openers[o].pc.Draining? || h.openers[o].pc.Closing? || h.openers[o].pc.Returned?)
  }

  lemma OpenerStepGrows(h: Hub, p: OpenerId, step: OpenerStep, r: RelayId, o: OpenerId)
    requires OpenerCan(h, p, step)
    ensures Grows(h, OpenerNext(h, p, step), r, o)
  {
  }

  lemma ClaimGrows(h: Hub, q: RelayId, r: RelayId, o: OpenerId)
    requires EntriesOpen(h) && RelayCan(h, q, Claim)
    ensures Grows(h, RelayNext(h, q, Claim), r, o)
  {
  }

  lemma SendGrows(h: Hub, q: RelayId, r: RelayId, o: OpenerId)
    requires RelayCan(h, q, Send)
    ensures Grows(h, RelayNext(h, q, Send), r, o)
  {
  }

  lemma RelayStepGrows(h: Hub, q: RelayId, step: RelayStep, r: RelayId, o: OpenerId)
    requires EntriesOpen(h) && RelayCan(h, q, step)
    ensures Grows(h, RelayNext(h, q, step), r, o)
  {
    match step
    case Claim => ClaimGrows(h, q, r, o);
    case Send => SendGrows(h, q, r, o);
    case _ =>
  }

  lemma StepGrows(h: Hub, a: Action, r: RelayId, o: OpenerId)
    requires EntriesOpen(h) && Enabled(h, a)
    ensures Grows(h, Next(h, a), r, o)
  {
    match a
    case OfSupervisor(s, step) => SupervisorStepFrame(h, s, step);
    case OfDisconnect(_, _) =>
    case OfOpener(p, step) => OpenerStepGrows(h, p, step, r, o);
    case OfRelay(q, step) => RelayStepGrows(h, q, step, r, o);
  }

  lemma {:induction false} RunGrows(states: seq<Hub>, actions: seq<Action>, i: nat, k: nat, r: RelayId, o: OpenerId)
    requires IsRun(states, actions) && i <= k < |states|
    ensures Grows(states[i], states[k], r, o)
    decreases k - i
  {
    if i < k {
      RunGrows(states, actions, i, k - 1, r, o);
      RunKeepsPaired(states, actions, k - 1);
      assert StepAt(states, actions, k - 1);
      StepGrows(states[k - 1], actions[k - 1], r, o);
    }
  }

  /** In every interleaving an opener's entry is claimed at most once. */
  lemma ClaimedAtMostOnce(states: seq<Hub>, actions: seq<Action>, i: nat, j: nat, r: RelayId, q: RelayId, o: OpenerId)
    requires IsRun(states, actions)
    requires ClaimsAt(states, actions, i, r, o) && ClaimsAt(states, actions, j, q, o)
    ensures i == j && r == q
  {
    if i < j {
      ClaimExcludesLater(states, actions, i, j, r, q, o);
    } else if j < i {
      ClaimExcludesLater(states, actions, j, i, q, r, o);
    }
  }

  lemma ClaimExcludesLater(states: seq<Hub>, actions: seq<Action>, i: nat, j: nat, r: RelayId, q: RelayId, o: OpenerId)
    requires IsRun(states, actions) && i < j < |actions| && ClaimsAt(states, actions, i, r, o)
    ensures !ClaimsAt(states, actions, j, q, o)
  {
    assert StepAt(states, actions, i);
    assert Targets(states[i + 1], r, o);
    RunGrows(states, actions, i + 1, j, r, o);
    RunKeepsPaired(states, actions, j);
  }

  /** The send always finds the ready channel empty, so the close-on-full branch is never taken. */
  lemma SendNeverBlocked(states: seq<Hub>, actions: seq<Action>, k: nat, r: RelayId)
    requires IsRun(states, actions) && k < |states| && r in states[k].relays
    ensures !states[k].relays[r].pc.Full? && !states[k].relays[r].pc.Dropped?
    ensures states[k].relays[r].pc.Holding? ==>
              RelayCan(states[k], r, Send) && states[k].openers[states[k].relays[r].pc.target].ready.None?
  {
    RunKeepsPaired(states, actions, k);
    if states[k].relays[r].pc.Holding? {
      SendFindsBufferEmpty(states[k], r);
    }
  }

  /** A stream an opener has taken came from a relay call with its own sandbox and channel id, and no other opener has
      it. */
  lemma DeliveredToItsOwnOpener(states: seq<Hub>, actions: seq<Action>, k: nat, o: OpenerId, c: RelayId)
    requires IsRun(states, actions) && k < |states|
    requires o in states[k].openers && Taken(states[k].openers[o].pc) == Some(c)
    ensures c in states[k].relays
    ensures states[k].relays[c].sandbox == states[k].openers[o].sandbox
    ensures states[k].relays[c].channel == states[k].openers[o].channel
    ensures forall p | p in states[k].openers && (Taken(states[k].openers[p].pc) == Some(c) || Buffers(states[k], c, p))
              :: p == o
    ensures states[k].openers[o].ready.None?
  {
    RunKeepsPaired(states, actions, k);
    assert Targets(states[k], c, o);
  }

  // --- Conservation of streams ---

  /** Where an accepted data stream can be. */
  datatype Place = AtRelay | InBuffer(o: OpenerId) | WithOpener(o: OpenerId) | Shut

  ghost predicate IsAt(h: Hub, c: RelayId, place: Place) {
    match place
    case AtRelay => c in h.relays && (h.relays[c].pc.Holding? || h.relays[c].pc.Full?)
    case InBuffer(o) => Buffers(h, c, o)
    case WithOpener(o) => o in h.openers && Taken(h.openers[o].pc) == Some(c)
    case Shut => c in h.closedStreams
  }

  /** Every accepted stream is in exactly one place: with its relay, buffered, with an opener, or closed. */
  lemma StreamsConserved(states: seq<Hub>, actions: seq<Action>, k: nat, c: RelayId) returns (place: Place)
    requires IsRun(states, actions) && k < |states|
    requires c in states[k].relays && HasStream(states[k].relays[c].pc)
    ensures IsAt(states[k], c, place)
    ensures forall other | IsAt(states[k], c, other) :: other == place
  {
    RunKeepsPaired(states, actions, k);
    var h := states[k];
    var o := h.relays[c].pc.target;
    if h.relays[c].pc.Holding? {
      place := AtRelay;
    } else {
      place := if h.openers[o].ready == Some(c) then InBuffer(o)
               else if Taken(h.openers[o].pc) == Some(c) then WithOpener(o) else Shut;
    }
  }

  // --- Streams left behind in the buffer of a returned opener ---

  /** Relay c has claimed o's entry and its stream may still be sent. */
  ghost predicate InFlight(h: Hub, c: RelayId, o: OpenerId) {
    c in h.relays && (h.relays[c].pc == Claimed(o) || h.relays[c].pc == Holding(o))
  }

  /** Step m is o's drain, and it found the ready channel empty. */
  ghost predicate DrainsEmptyAt(states: seq<Hub>, actions: seq<Action>, m: nat, o: OpenerId)
    requires IsRun(states, actions)
  {
    m < |actions| && actions[m] == OfOpener(o, Drain) && o in states[m].openers && states[m].openers[o].ready.None?
  }

  /** o has returned without a stream and c, claimed for o, is unsent or sits in o's buffer. */
  ghost predicate Abandoned(h: Hub, c: RelayId, o: OpenerId) {
    && o in h.openers && h.openers[o].pc.Returned? && h.openers[o].pc.outcome.Failed?
    && Targets(h, c, o) && (SentTo(h, c, o) ==> Buffers(h, c, o))
  }

  lemma OpenerStepKeepsAbandoned(h: Hub, p: OpenerId, step: OpenerStep, c: RelayId, o: OpenerId)
    requires OpenerCan(h, p, step) && Abandoned(h, c, o)
    ensures Abandoned(OpenerNext(h, p, step), c, o)
  {
  }

  lemma RelayStepKeepsAbandoned(h: Hub, q: RelayId, step: RelayStep, c: RelayId, o: OpenerId)
    requires RelayCan(h, q, step) && Abandoned(h, c, o)
    ensures Abandoned(RelayNext(h, q, step), c, o)
  {
  }

  lemma {:induction false} RunKeepsAbandoned(states: seq<Hub>, actions: seq<Action>, i: nat, k: nat,
                                             c: RelayId, o: OpenerId)
    requires IsRun(states, actions) && i <= k < |states| && Abandoned(states[i], c, o)
    ensures Abandoned(states[k], c, o)
    decreases k - i
  {
    if i < k {
      RunKeepsAbandoned(states, actions, i, k - 1, c, o);
      assert StepAt(states, actions, k - 1);
      match actions[k - 1]
      case OfSupervisor(s, step) => SupervisorStepFrame(states[k - 1], s, step);
      case OfDisconnect(_, _) =>
      case OfOpener(p, step) => OpenerStepKeepsAbandoned(states[k - 1], p, step, c, o);
      case OfRelay(q, step) => RelayStepKeepsAbandoned(states[k - 1], q, step, c, o);
    }
  }

  /**
   After an opener's drain found its channel empty, a stream is left in that channel exactly when its claim was in
   flight at the drain and its send has happened since. In particular nothing is left behind if no claim was in flight.
   */
  lemma StrandedIffInFlightAtDrain(states: seq<Hub>, actions: seq<Action>, m: nat, k: nat, o: OpenerId, c: RelayId)
    requires IsRun(states, actions) && DrainsEmptyAt(states, actions, m, o) && m < k < |states|
    ensures Buffers(states[k], c, o) <==> InFlight(states[m], c, o) && SentTo(states[k], c, o)
  {
    assert StepAt(states, actions, m);
    RunKeepsPaired(states, actions, k);
    if InFlight(states[m], c, o) {
      assert Abandoned(states[m + 1], c, o);
      RunKeepsAbandoned(states, actions, m + 1, k, c, o);
    } else if Buffers(states[k], c, o) {
      BufferedWasInFlight(states, actions, m, k, o, c);
    }
  }

  lemma OpenerKeepsRelays(h: Hub, p: OpenerId, step: OpenerStep)
    requires OpenerCan(h, p, step)
    ensures OpenerNext(h, p, step).relays == h.relays
  {
  }

  lemma RelayMovesItself(h: Hub, q: RelayId, step: RelayStep)
    requires RelayCan(h, q, step)
    ensures var k := RelayNext(h, q, step); q in k.relays && k.relays == h.relays[q := k.relays[q]]
  {
  }

  /** Only a relay call's own steps move it. */
  lemma OthersKeepRelay(h: Hub, a: Action, c: RelayId)
    requires Enabled(h, a) && !(a.OfRelay? && a.r == c)
    ensures c in Next(h, a).relays <==> c in h.relays
    ensures c in h.relays ==> Next(h, a).relays[c] == h.relays[c]
  {
    match a
    case OfSupervisor(s, step) => SupervisorStepFrame(h, s, step);
    case OfDisconnect(_, _) =>
    case OfOpener(p, step) => OpenerKeepsRelays(h, p, step);
    case OfRelay(q, step) => RelayMovesItself(h, q, step);
  }

  lemma {:induction false} FailedAcceptIsFinal(states: seq<Hub>, actions: seq<Action>, i: nat, k: nat,
                                               c: RelayId, o: OpenerId)
    requires IsRun(states, actions) && i <= k < |states|
    requires c in states[i].relays && states[i].relays[c].pc == AcceptFailed(o)
    ensures c in states[k].relays && states[k].relays[c].pc == AcceptFailed(o)
    decreases k - i
  {
    if i < k {
      FailedAcceptIsFinal(states, actions, i, k - 1, c, o);
      assert StepAt(states, actions, k - 1);
      if !(actions[k - 1].OfRelay? && actions[k - 1].r == c) {
        OthersKeepRelay(states[k - 1], actions[k - 1], c);
      }
    }
  }

  lemma BufferedWasInFlight(states: seq<Hub>, actions: seq<Action>, m: nat, k: nat, o: OpenerId, c: RelayId)
    requires IsRun(states, actions) && DrainsEmptyAt(states, actions, m, o) && m < k < |states|
    requires Buffers(states[k], c, o)
    ensures InFlight(states[m], c, o) && SentTo(states[k], c, o)
  {
    assert StepAt(states, actions, m);
    RunKeepsPaired(states, actions, k);
    RunKeepsPaired(states, actions, m);
    RunGrows(states, actions, m, k, c, o);
    assert Targets(states[k], c, o) && Left(states[m], o);
    if states[m].relays[c].pc == AcceptFailed(o) {
      FailedAcceptIsFinal(states, actions, m, k, c, o);
    }
  }

  /** A stream in the buffer of an opener that has returned stays there, unclosed, for the rest of the run. */
  lemma StrandedForGood(states: seq<Hub>, actions: seq<Action>, i: nat, k: nat, c: RelayId, o: OpenerId)
    requires IsRun(states, actions) && i <= k < |states|
    requires Buffers(states[i], c, o) && states[i].openers[o].pc.Returned?
    ensures Buffers(states[k], c, o) && states[k].openers[o].pc.Returned? && c !in states[k].closedStreams
  {
    RunKeepsPaired(states, actions, i);
    RunKeepsPaired(states, actions, k);
    RunGrows(states, actions, i, k, c, o);
    RunKeepsAbandoned(states, actions, i, k, c, o);
    var place := StreamsConserved(states, actions, k, c);
  }

  // --- The order of events behind a stranded stream ---

  lemma RelayKeepsPcs(h: Hub, r: RelayId, step: RelayStep, o: OpenerId)
    requires RelayCan(h, r, step)
    ensures o in RelayNext(h, r, step).openers ==>
              o in h.openers && RelayNext(h, r, step).openers[o].pc == h.openers[o].pc
  {
  }

  lemma OpenerKeepsOtherPcs(h: Hub, p: OpenerId, step: OpenerStep, o: OpenerId)
    requires OpenerCan(h, p, step) && p != o
    ensures o in OpenerNext(h, p, step).openers ==>
              o in h.openers && OpenerNext(h, p, step).openers[o].pc == h.openers[o].pc
  {
  }

  /** Only an opener's own steps move its pc. */
  lemma OthersKeepPc(h: Hub, a: Action, o: OpenerId)
    requires Enabled(h, a) && !(a.OfOpener? && a.o == o)
    ensures o in Next(h, a).openers ==> o in h.openers && Next(h, a).openers[o].pc == h.openers[o].pc
  {
    match a
    case OfSupervisor(s, step) => SupervisorStepFrame(h, s, step);
    case OfDisconnect(_, _) =>
    case OfOpener(p, step) => OpenerKeepsOtherPcs(h, p, step, o);
    case OfRelay(r, step) => RelayKeepsPcs(h, r, step, o);
  }

  /** The step at which an opener reached the pc it still has, found by walking back. */
  lemma {:induction false} FindEntryToPc(states: seq<Hub>, actions: seq<Action>, k: nat, o: OpenerId) returns (i: nat)
    requires IsRun(states, actions) && k < |states| && o in states[k].openers && !states[k].openers[o].pc.Fresh?
    ensures i < k && actions[i].OfOpener? && actions[i].o == o && StepAt(states, actions, i)
    ensures o in states[i + 1].openers && states[i + 1].openers[o].pc == states[k].openers[o].pc
    ensures o in states[i].openers && states[i].openers[o].pc != states[k].openers[o].pc
  {
    assert k > 0 && StepAt(states, actions, k - 1);
    var h, a := states[k - 1], actions[k - 1];
    if o in h.openers && h.openers[o].pc == states[k].openers[o].pc {
      i := FindEntryToPc(states, actions, k - 1, o);
    } else {
      i := k - 1;
      if !(a.OfOpener? && a.o == o) {
        OthersKeepPc(h, a, o);
      }
    }
  }

  lemma ClaimSource(h: Hub, a: Action, c: RelayId, o: OpenerId)
    requires Enabled(h, a) && Targets(Next(h, a), c, o) && !Targets(h, c, o)
    ensures a == OfRelay(c, Claim) && Claimable(h, h.relays[c]) == Some(o)
  {
    if !(a.OfRelay? && a.r == c) {
      OthersKeepRelay(h, a, c);
    }
  }

  lemma SendSource(h: Hub, a: Action, c: RelayId, o: OpenerId)
    requires Enabled(h, a) && SentTo(Next(h, a), c, o) && !SentTo(h, c, o)
    ensures a == OfRelay(c, Send)
  {
    if !(a.OfRelay? && a.r == c) {
      OthersKeepRelay(h, a, c);
    }
  }

  lemma {:induction false} FindClaim(states: seq<Hub>, actions: seq<Action>, k: nat, c: RelayId, o: OpenerId)
      returns (i: nat)
    requires IsRun(states, actions) && k < |states| && Targets(states[k], c, o)
    ensures i < k && ClaimsAt(states, actions, i, c, o)
  {
    assert k > 0 && StepAt(states, actions, k - 1);
    if Targets(states[k - 1], c, o) {
      i := FindClaim(states, actions, k - 1, c, o);
    } else {
      i := k - 1;
      ClaimSource(states[i], actions[i], c, o);
    }
  }

  lemma {:induction false} FindSend(states: seq<Hub>, actions: seq<Action>, m: nat, k: nat, c: RelayId, o: OpenerId)
      returns (i: nat)
    requires IsRun(states, actions) && m <= k < |states| && SentTo(states[k], c, o) && !SentTo(states[m], c, o)
    ensures m <= i < k && actions[i] == OfRelay(c, Send)
    decreases k
  {
    assert k > m && StepAt(states, actions, k - 1);
    if SentTo(states[k - 1], c, o) {
      i := FindSend(states, actions, m, k - 1, c, o);
    } else {
      i := k - 1;
      SendSource(states[i], actions[i], c, o);
    }
  }

  lemma FreshIsNoTarget(states: seq<Hub>, actions: seq<Action>, m: nat, o: OpenerId, c: RelayId)
    requires IsRun(states, actions) && m < |actions| && o in states[m].openers && states[m].openers[o].pc.Fresh?
    requires actions[m].OfOpener?
    ensures !Targets(states[m + 1], c, o)
  {
    RunKeepsPaired(states, actions, m);
    assert !Targets(states[m], c, o);
    assert StepAt(states, actions, m);
    OthersKeepRelay(states[m], actions[m], c);
  }

  /** An opener that never registered is nobody's target, then or later. */
  lemma NotThroughRegister(states: seq<Hub>, actions: seq<Action>, m: nat, k: nat, o: OpenerId, c: RelayId)
    requires IsRun(states, actions) && m < k < |states| && o in states[m].openers && states[m].openers[o].pc.Fresh?
    requires actions[m].OfOpener? && Left(states[m + 1], o)
    ensures !Targets(states[k], c, o)
  {
    FreshIsNoTarget(states, actions, m, o, c);
    RunGrows(states, actions, m + 1, k, c, o);
  }

  /** An opener that took a stream out of its buffer never has one there again. */
  lemma NothingAfterTaken(states: seq<Hub>, actions: seq<Action>, m: nat, k: nat, o: OpenerId, c: RelayId)
    requires IsRun(states, actions) && m <= k < |states|
    requires o in states[m].openers && Taken(states[m].openers[o].pc).Some?
    ensures !Buffers(states[k], c, o)
  {
    var h, d := states[k], Taken(states[m].openers[o].pc).value;
    RunKeepsPaired(states, actions, m);
    RunKeepsPaired(states, actions, k);
    RunGrows(states, actions, m, k, d, o);
    assert SentTo(states[m], d, o) && !Buffers(states[m], d, o);
    assert Targets(h, d, o);
    assert Buffers(h, c, o) ==> Targets(h, c, o);
  }

  /** A returned opener with a stream in its buffer returned through a drain that found the buffer empty. */
  lemma FindEmptyDrain(states: seq<Hub>, actions: seq<Action>, k: nat, o: OpenerId, c: RelayId) returns (m: nat)
    requires IsRun(states, actions) && k < |states| && Buffers(states[k], c, o) && states[k].openers[o].pc.Returned?
    ensures m < k && DrainsEmptyAt(states, actions, m, o)
  {
    m := FindEntryToPc(states, actions, k, o);
    if states[m].openers[o].pc.Fresh? {
      NotThroughRegister(states, actions, m, k, o, c);
      RunKeepsPaired(states, actions, k);
    } else if Taken(states[m].openers[o].pc).Some? {
      NothingAfterTaken(states, actions, m, k, o, c);
    }
  }

  /** The opener's delete of its entry comes before its drain. */
  lemma FindRemove(states: seq<Hub>, actions: seq<Action>, drain: nat, o: OpenerId) returns (i: nat)
    requires IsRun(states, actions) && DrainsEmptyAt(states, actions, drain, o)
    ensures i < drain && actions[i] == OfOpener(o, Remove) && Left(states[i + 1], o)
  {
    assert StepAt(states, actions, drain);
    i := FindEntryToPc(states, actions, drain, o);
  }

  /**
   A stream ends in the buffer of a returned opener only through one order of events: its claim, then the opener's
   delete of the entry, then the opener's empty drain, then the send.
   */
  lemma StrandedOrder(states: seq<Hub>, actions: seq<Action>, k: nat, o: OpenerId, c: RelayId)
      returns (claim: nat, remove: nat, drain: nat, send: nat)
    requires IsRun(states, actions) && k < |states| && Buffers(states[k], c, o) && states[k].openers[o].pc.Returned?
    ensures claim < remove < drain < send < k
    ensures ClaimsAt(states, actions, claim, c, o) && actions[remove] == OfOpener(o, Remove)
    ensures DrainsEmptyAt(states, actions, drain, o) && actions[send] == OfRelay(c, Send)
  {
    drain := FindEmptyDrain(states, actions, k, o, c);
    BufferedWasInFlight(states, actions, drain, k, o, c);
    send := FindSend(states, actions, drain, k, c, o);
    remove := FindRemove(states, actions, drain, o);
    claim := FindClaim(states, actions, drain, c, o);
    if remove < claim {
      ClaimNeedsOpenEntry(states, actions, remove, claim, c, o);
    }
  }

  lemma ClaimNeedsOpenEntry(states: seq<Hub>, actions: seq<Action>, i: nat, j: nat, c: RelayId, o: OpenerId)
    requires IsRun(states, actions) && i < j < |actions| && Left(states[i + 1], o)
    ensures !ClaimsAt(states, actions, j, c, o)
  {
    RunGrows(states, actions, i + 1, j, c, o);
    RunKeepsPaired(states, actions, j);
  }

  // --- The window is real ---

  /** A supervisor registers and an opener waits on channel "x". */
  lemma WaitingRun()
      returns (states: seq<Hub>, actions: seq<Action>, s: map<string, SessionId>, u: map<SessionId, Supervisor>)
    ensures IsRun(states, actions)
    ensures states[|actions|] ==
      Hub(s, map["x" := 0], u, map[0 := Opener("a", "x", Waiting(0), None)], map[], map[], {})
  {
    var a0, a1 := OfSupervisor(0, Arrive("a")), OfSupervisor(0, Swap);
    var a2, a3, a4 := OfOpener(0, Begin("a", "x")), OfOpener(0, Register), OfOpener(0, Write(true));
    var h1 := Next(EMPTY_HUB, a0);
    var h2 := Next(h1, a1);
    var h3 := Next(h2, a2);
    var h4 := Next(h3, a3);
    var h5 := Next(h4, a4);
    states, actions := [EMPTY_HUB, h1, h2, h3, h4, h5], [a0, a1, a2, a3, a4];
    s, u := h5.sessions, h5.supervisors;
    assert h5.openers == map[0 := Opener("a", "x", Waiting(0), None)];
    assert h5.pending == map["x" := 0];
  }

  /** The entry is claimed, then the opener times out and deletes it. */
  lemma ClaimedRun()
      returns (states: seq<Hub>, actions: seq<Action>, s: map<string, SessionId>, u: map<SessionId, Supervisor>)
    ensures IsRun(states, actions)
    ensures states[|actions|] == Hub(s, map[], u, map[0 := Opener("a", "x", Draining(OpenTimeout), None)],
                                     map[0 := Relay("a", "x", Claimed(0))], map[], {})
  {
    states, actions, s, u := WaitingRun();
    var me, relay := Opener("a", "x", Waiting(0), None), Relay("a", "x", Claimed(0));
    states, actions := Extend(states, actions, OfRelay(0, Dial("a", "x")),
      Hub(s, map["x" := 0], u, map[0 := me], map[0 := relay.(pc := Arrived)], map[], {}));
    states, actions := Extend(states, actions, OfRelay(0, Claim),
      Hub(s, map[], u, map[0 := me], map[0 := relay], map[], {}));
    states, actions := Extend(states, actions, OfOpener(0, GiveUp(OpenTimeout)),
      Hub(s, map[], u, map[0 := me.(pc := Cleanup(Failed(OpenTimeout)))], map[0 := relay], map[], {}));
    states, actions := Extend(states, actions, OfOpener(0, Remove),
      Hub(s, map[], u, map[0 := me.(pc := Draining(OpenTimeout))], map[0 := relay], map[], {}));
  }

  /** Some run does leave an accepted stream, open, in the buffer of an opener that has returned. */
  lemma StrandingHappens() returns (states: seq<Hub>, actions: seq<Action>)
    ensures IsRun(states, actions)
    ensures var h := states[|actions|];
            && Buffers(h, 0, 0) && h.openers[0].pc == Returned(Failed(OpenTimeout))
            && SentTo(h, 0, 0) && 0 !in h.closedStreams
  {
    var s, u;
    states, actions, s, u := ClaimedRun();
    var gone, relay := Opener("a", "x", Returned(Failed(OpenTimeout)), None), Relay("a", "x", Claimed(0));
    states, actions := Extend(states, actions, OfOpener(0, Drain),
      Hub(s, map[], u, map[0 := gone], map[0 := relay], map[], {}));
    states, actions := Extend(states, actions, OfRelay(0, Accept(true)),
      Hub(s, map[], u, map[0 := gone], map[0 := relay.(pc := Holding(0))], map[], {}));
    states, actions := Extend(states, actions, OfRelay(0, Send),
      Hub(s, map[], u, map[0 := gone.(ready := Some(0))], map[0 := relay.(pc := Sent(0))], map[], {}));
  }

  lemma Extend(states: seq<Hub>, actions: seq<Action>, a: Action, h: Hub)
      returns (states': seq<Hub>, actions': seq<Action>)
    requires IsRun(states, actions) && Enabled(states[|actions|], a) && Next(states[|actions|], a) == h
    ensures IsRun(states', actions') && states'[|actions'|] == h
  {
    states', actions' := states + [h], actions + [a];
    forall i | 0 <= i < |actions'| ensures StepAt(states', actions', i) {
      if i < |actions| {
        assert StepAt(states, actions, i);
      }
    }
  }
}
