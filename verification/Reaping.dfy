/** ReapSSHSessions against ValidateSSHSession: what is reaped could not have been accepted. */
module Reaping {
  import opened StoreState

  ghost predicate DistinctHashes(st: State) {
    forall i, j | i in st.sessions && j in st.sessions && st.sessions[i].tokenHash == st.sessions[j].tokenHash :: i == j
  }

  /** With distinct digests the answer does not depend on the iteration order. */
  lemma AnswerOfMatch(st: State, tok: string, sandbox: string, nowNs: int, id: string, v: Verdict)
    requires DistinctHashes(st) && tok != "" && SessionMatches(st, id, tok) && MayAnswer(st, tok, sandbox, nowNs, v)
    ensures v == Judge(st, st.sessions[id], sandbox, nowNs)
  {
  }

  /** A reap removes exactly the revoked and expired sessions. */
  lemma ReapedMatches(st: State, reapNs: int, tok: string, id: string)
    ensures SessionMatches(Apply(st, Reap(reapNs)), id, tok) <==>
              SessionMatches(st, id, tok) && !Reapable(st.sessions[id], reapNs)
    ensures SessionMatches(Apply(st, Reap(reapNs)), id, tok) ==> Apply(st, Reap(reapNs)).sessions[id] == st.sessions[id]
    ensures Apply(st, Reap(reapNs)) == st.(sessions := Apply(st, Reap(reapNs)).sessions)
    ensures DistinctHashes(st) ==> DistinctHashes(Apply(st, Reap(reapNs)))
  {
  }

  /** From the reap time on, reaping changes no accept/reject outcome, for any token, sandbox and iteration order. */
  lemma ReapIsInvisible(st: State, reapNs: int, nowNs: int, tok: string, sandbox: string, v: Verdict, w: Verdict)
    requires DistinctHashes(st) && reapNs <= nowNs
    requires MayAnswer(st, tok, sandbox, nowNs, v) && MayAnswer(Apply(st, Reap(reapNs)), tok, sandbox, nowNs, w)
    ensures v.Ok? <==> w.Ok?
    ensures v.Ok? ==> v == w
  {
    var after := Apply(st, Reap(reapNs));
    forall id ensures SessionMatches(after, id, tok) ==> SessionMatches(st, id, tok) {
      ReapedMatches(st, reapNs, tok, id);
    }
    if tok != "" {
      if id :| SessionMatches(st, id, tok) {
        MatchedReapIsInvisible(st, reapNs, nowNs, tok, sandbox, id, v, w);
      }
    }
  }

  lemma MatchedReapIsInvisible(st: State, reapNs: int, nowNs: int, tok: string, sandbox: string, id: string,
                               v: Verdict, w: Verdict)
    requires DistinctHashes(st) && reapNs <= nowNs && tok != "" && SessionMatches(st, id, tok)
    requires MayAnswer(st, tok, sandbox, nowNs, v) && MayAnswer(Apply(st, Reap(reapNs)), tok, sandbox, nowNs, w)
    ensures v.Ok? <==> w.Ok?
    ensures v.Ok? ==> v == w
  {
    var after := Apply(st, Reap(reapNs));
    AnswerOfMatch(st, tok, sandbox, nowNs, id, v);
    ReapedMatches(st, reapNs, tok, id);
    if Reapable(st.sessions[id], reapNs) {
      forall other ensures !SessionMatches(after, other, tok) {
        ReapedMatches(st, reapNs, tok, other);
      }
    } else {
      AnswerOfMatch(after, tok, sandbox, nowNs, id, w);
    }
  }
}
