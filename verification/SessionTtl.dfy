/** From the configured SSH session lifetime to the expiry of a session (internal/httpapi/gateway.go). */
module SessionTtl {
  import opened Options
  import opened StoreState

  const NS_PER_SEC := 1_000_000_000
  const DEFAULT_TTL_NS := 24 * 3600 * NS_PER_SEC
  const MAX_SECS := 9223372036

  predicate IsInt64(n: int) { -0x8000_0000_0000_0000 <= n < 0x8000_0000_0000_0000 }

  /** Two's complement wrap-around of a 64-bit product. */
  function Wrap64(n: int): (r: int)
    ensures IsInt64(r) && (IsInt64(n) ==> r == n)
  {
    var m := n % 0x1_0000_0000_0000_0000;
    if m < 0x8000_0000_0000_0000 then m else m - 0x1_0000_0000_0000_0000
  }

  /** parseTTLSecs on what the scanner read: None if the text is no integer. An explicit 0 becomes -1, "no expiry". */
  function ParseTtl(n: Option<int>): Option<int> {
    if n.None? || n.value < 0 then None else if n.value == 0 then Some(-1) else Some(Wrap64(n.value * NS_PER_SEC))
  }

  /** authFromEnv: the variable counts only while no lifetime is set. */
  function WithEnv(ttl: int, env: Option<Option<int>>): Option<int> {
    if ttl == 0 && env.Some? then ParseTtl(env.value) else Some(ttl)
  }

  /** NewHandler: 0 stands for the default, a negative lifetime for no expiry. */
  function Normalised(ttl: int): int {
    if ttl == 0 then DEFAULT_TTL_NS else if ttl < 0 then 0 else ttl
  }

  /** The lifetime new sessions get, from the flag and the environment variable; None if start-up is refused. */
  function SessionLifetime(flag: Option<Option<int>>, env: Option<Option<int>>): Option<int> {
    var fromFlag := if flag.Some? then ParseTtl(flag.value) else Some(0);
    if fromFlag.None? then None
    else match WithEnv(fromFlag.value, env)
      case None => None
      case Some(ttl) => Some(Normalised(ttl))
  }

  lemma MilliShift(nowNs: int, ms: int)
    ensures UnixMilli(nowNs + ms * NS_PER_MS) == UnixMilli(nowNs) + ms
  {
  }

  /** A configured lifetime of n seconds is kept exactly when it fits in 64 bits of nanoseconds. */
  lemma LifetimeExactIff(n: int, env: Option<Option<int>>)
    requires 1 <= n && IsInt64(n)
    ensures SessionLifetime(Some(Some(n)), env) == Some(n * NS_PER_SEC) <==> n <= MAX_SECS
    ensures SessionLifetime(None, Some(Some(n))) == Some(n * NS_PER_SEC) <==> n <= MAX_SECS
  {
    var ttl := Wrap64(n * NS_PER_SEC);
    if n > MAX_SECS {
      assert n * NS_PER_SEC > 0x7fff_ffff_ffff_ffff && ttl < n * NS_PER_SEC;
      LifetimeBound(Some(Some(n)), env);
      LifetimeBound(None, Some(Some(n)));
    }
  }

  lemma LifetimeBound(flag: Option<Option<int>>, env: Option<Option<int>>)
    ensures SessionLifetime(flag, env).Some? ==> SessionLifetime(flag, env).value < 0x8000_0000_0000_0000
  {
  }

  /** Every session created with that lifetime expires ms milliseconds after its creation stamp. */
  ghost predicate ExpiresAfter(ttl: Option<int>, ms: int) {
    && ttl.Some?
    && forall id, sandbox, tok, subject, nowNs ::
         var sess := NewSession(id, sandbox, tok, subject, nowNs, ttl.value);
         sess.expiresAtMs == sess.createdAtMs + ms
  }

  /** With n seconds configured, by the flag or by the environment alone, a session expires exactly 1000 n milliseconds
      after its creation stamp. */
  lemma ExpiryExact(n: int, env: Option<Option<int>>)
    requires 1 <= n <= MAX_SECS
    ensures ExpiresAfter(SessionLifetime(Some(Some(n)), env), 1000 * n)
    ensures ExpiresAfter(SessionLifetime(None, Some(Some(n))), 1000 * n)
  {
    LifetimeExactIff(n, env);
    forall nowNs ensures UnixMilli(nowNs + n * NS_PER_SEC) == UnixMilli(nowNs) + 1000 * n {
      MilliShift(nowNs, 1000 * n);
    }
  }

  /** The setting is given and is no number of seconds. */
  predicate Unusable(setting: Option<Option<int>>) {
    setting.Some? && (setting.value.None? || setting.value.value < 0)
  }

  /** The environment is looked at only without a flag, or with one whose nanoseconds wrap around to 0. */
  predicate LooksAtEnv(flag: Option<Option<int>>) {
    flag.None? || (flag.value.Some? && flag.value.value > 0
                   && (flag.value.value * 1_000_000_000) % 0x1_0000_0000_0000_0000 == 0)
  }

  /** Start-up is refused exactly for a setting that is looked at and is negative or no number. */
  lemma RefusedIff(flag: Option<Option<int>>, env: Option<Option<int>>)
    ensures SessionLifetime(flag, env).None? <==> Unusable(flag) || (LooksAtEnv(flag) && Unusable(env))
  {
  }

  /** One second more than the limit wraps to a negative number, which means no expiry; about twice the limit wraps to
      less than a third of a second. */
  lemma LongLifetimesWrap()
    ensures SessionLifetime(Some(Some(9223372037)), None) == Some(0)
    ensures SessionLifetime(Some(Some(18446744074)), None) == Some(290_448_384)
  {
  }

  /** An explicit 0 means no expiry, whatever the environment says; no setting at all means 24 hours. */
  lemma ZeroAndDefault(env: Option<Option<int>>, id: string, sandbox: string, tok: string, subject: string, nowNs: int)
    ensures SessionLifetime(Some(Some(0)), env) == Some(0)
    ensures NewSession(id, sandbox, tok, subject, nowNs, 0).expiresAtMs == 0
    ensures SessionLifetime(None, None) == Some(DEFAULT_TTL_NS)
    ensures var sess := NewSession(id, sandbox, tok, subject, nowNs, DEFAULT_TTL_NS);
            sess.expiresAtMs == sess.createdAtMs + 86_400_000
  {
    MilliShift(nowNs, 86_400_000);
  }
}
