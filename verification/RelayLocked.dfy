/**
 The critical sections of the hub on its two maps, in place. Each method is the
 code between one Lock and its Unlock and is proved to do to the maps what the
 corresponding action of the transition system does.
 */
module RelayLocked {
  import opened Options
  import opened RelayHub

  /** A pending record: the opener whose ready channel it carries, and its sandbox. */
  datatype Pending = Pending(opener: OpenerId, sandbox: string)

  class Hub {
    var sessions: map<string, SessionId>
    var pending: map<string, Pending>

    /** The two maps of this object are those of the abstract state h. */
    ghost predicate Shows(h: RelayHub.Hub)
      reads this
    {
      && sessions == h.sessions && pending.Keys == h.pending.Keys
      && forall ch | ch in pending ::
           && pending[ch].opener == h.pending[ch] && h.pending[ch] in h.openers
           && pending[ch].sandbox == h.openers[h.pending[ch]].sandbox
    }

    constructor ()
      ensures Shows(EMPTY_HUB)
    {
      sessions, pending := map[], map[];
    }

    method Connected(sandbox: string) returns (ok: bool)
      ensures ok <==> sandbox in sessions
    {
      ok := sandbox in sessions;
    }

    /** ServeSupervisor registers its session and learns which one it replaced. */
    method RegisterSession(ghost h: RelayHub.Hub, s: SessionId, sandbox: string) returns (prev: Option<SessionId>)
      requires Shows(h) && SupervisorCan(h, s, Swap) && h.supervisors[s].sandbox == sandbox
      modifies this
      ensures Shows(SupervisorNext(h, s, Swap))
      ensures SupervisorNext(h, s, Swap).supervisors[s].pc == Swapped(prev)
    {
      prev := if sandbox in sessions then Some(sessions[sandbox]) else None;
      sessions := sessions[sandbox := s];
    }

    /** The deferred cleanup of ServeSupervisor removes its own session only. */
    method UnlinkSession(ghost h: RelayHub.Hub, s: SessionId, sandbox: string)
      requires Shows(h) && SupervisorCan(h, s, Unlink) && h.supervisors[s].sandbox == sandbox
      modifies this
      ensures Shows(SupervisorNext(h, s, Unlink))
      ensures forall name | name in old(sessions) && old(sessions)[name] != s ::
                name in sessions && sessions[name] == old(sessions)[name]
    {
      if sandbox in sessions && sessions[sandbox] == s {
        sessions := sessions - {sandbox};
      }
    }

    method TakeSession(ghost h: RelayHub.Hub, ghost d: DisconnectId, sandbox: string)
        returns (victim: Option<SessionId>)
      requires Shows(h) && DisconnectCan(h, d, Take(sandbox))
      modifies this
      ensures Shows(DisconnectNext(h, d, Take(sandbox)))
      ensures DisconnectNext(h, d, Take(sandbox)).disconnects[d] == Disconnecting(sandbox, victim)
    {
      victim := if sandbox in sessions then Some(sessions[sandbox]) else None;
      sessions := sessions - {sandbox};
    }

    /** OpenChannel registers its channel if the sandbox has a session. */
    method RegisterChannel(ghost h: RelayHub.Hub, o: OpenerId, sandbox: string, channel: string)
        returns (s: Option<SessionId>)
      requires Shows(h) && OpenerCan(h, o, Register)
      requires h.openers[o].sandbox == sandbox && h.openers[o].channel == channel
      modifies this
      ensures Shows(OpenerNext(h, o, Register))
      ensures OpenerNext(h, o, Register).openers[o].pc ==
                if s.Some? then Registered(s.value) else Returned(Failed(NotConnected))
    {
      if sandbox !in sessions {
        return None;
      }
      pending := pending[channel := Pending(o, sandbox)];
      return Some(sessions[sandbox]);
    }

    /** The deferred cleanup of OpenChannel. */
    method RemoveChannel(ghost h: RelayHub.Hub, o: OpenerId, channel: string)
      requires Shows(h) && OpenerCan(h, o, Remove) && h.openers[o].channel == channel
      modifies this
      ensures Shows(OpenerNext(h, o, Remove))
    {
      pending := pending - {channel};
    }

    /** ServeRelay takes the channel's entry if it belongs to the caller's sandbox. */
    method ClaimChannel(ghost h: RelayHub.Hub, r: RelayId, sandbox: string, channel: string)
        returns (p: Option<Pending>)
      requires Shows(h) && RelayCan(h, r, Claim) && h.relays[r].sandbox == sandbox && h.relays[r].channel == channel
      modifies this
      ensures Shows(RelayNext(h, r, Claim))
      ensures RelayNext(h, r, Claim).relays[r].pc == if p.Some? then Claimed(p.value.opener) else Rejected
    {
      if channel in pending && pending[channel].sandbox == sandbox {
        p := Some(pending[channel]);
        pending := pending - {channel};
      } else {
        p := None;
      }
    }
  }
}
