/**
 The two parsers of a sandbox path: the allowlist for supervisor tokens
 (internal/httpapi/auth.go) and the router behind it (internal/httpapi/gateway.go,
 ssh_api.go, providers.go, proposals.go).
 */
module SandboxRoutes {
  import opened Options

  // --- strings.TrimPrefix, Trim, Split, Cut and Join on '/' ---

  function TrimPrefix(s: string, p: string): string {
    if p <= s then s[|p|..] else s
  }

  function TrimLeft(s: string): string {
    if s != "" && s[0] == '/' then TrimLeft(s[1..]) else s
  }

  function TrimRight(s: string): string {
    if s != "" && s[|s| - 1] == '/' then TrimRight(s[..|s| - 1]) else s
  }

  function Trim(s: string): string { TrimLeft(TrimRight(s)) }

  /** Position of the first slash, or the length if there is none. */
  function FirstSlash(s: string): (i: nat)
    ensures i <= |s| && (i < |s| ==> s[i] == '/') && forall j | 0 <= j < i :: s[j] != '/'
  {
    if s == "" || s[0] == '/' then 0 else 1 + FirstSlash(s[1..])
  }

  function Split(s: string): (parts: seq<string>)
    ensures |parts| >= 1
    decreases |s|
  {
    var i := FirstSlash(s);
    if i == |s| then [s] else [s[..i]] + Split(s[i + 1..])
  }

  function Join(parts: seq<string>): string {
    if parts == [] then "" else if |parts| == 1 then parts[0] else parts[0] + "/" + Join(parts[1..])
  }

  predicate HasSuffix(s: string, t: string) {
    |t| <= |s| && s[|s| - |t|..] == t
  }

  predicate SlashFree(s: string) { '/' !in s }

  // --- The allowlist ---

  const PREFIX := "/v1/sandboxes/"

  /** The two relay paths, whose values belong to the relay protocol library. */
  datatype RelayPaths = RelayPaths(connect: string, relay: string)

  /** Neither relay path can be confused with a path below /v1/sandboxes/. */
  predicate Apart(paths: RelayPaths) {
    !(PREFIX <= paths.connect) && !(paths.relay <= PREFIX) && !(PREFIX <= paths.relay)
  }

  /** sandboxRouteAllowed; querySandbox is the value of the query parameter "sandbox". */
  predicate Allowed(paths: RelayPaths, verb: string, path: string, querySandbox: string, sandbox: string) {
    if path == paths.connect then verb == "GET" && querySandbox == sandbox
    else if paths.relay <= path then verb == "GET"
    else if path == "/v1/whoami" then verb == "GET"
    else
      var prefix := PREFIX + sandbox + "/";
      prefix <= path && AllowedSegments(verb, Split(Trim(TrimPrefix(path, prefix))))
  }

  predicate AllowedSegments(verb: string, parts: seq<string>)
    requires |parts| >= 1
  {
    if |parts| == 1 && parts[0] == "secrets" then verb == "GET"
    else if |parts| == 1 && parts[0] == "logs" then verb == "POST"
    else if |parts| == 1 && (parts[0] == "policy" || parts[0] == "effective-policy") then verb == "GET"
    else if |parts| == 1 && parts[0] == "proposals" then verb == "POST"
    else if |parts| == 2 && parts[0] == "proposals" then verb == "GET"
    else false
  }

  // --- The router ---

  datatype Handler =
    | CreateSshSession | IssueSupervisorToken | Exec
    | ReadEffectivePolicy | ReadPolicy | WritePolicy | ReadBasePolicy | ReadRevisions
    | ListProviders | AttachProvider(provider: string) | DetachProvider(provider: string)
    | ReadSecrets | AppendLogs | ReadLogs
    | ListProposals | CreateProposal | GetProposal(id: string)
    | ApproveProposal(id: string) | RejectProposal(id: string)
    | MethodNotAllowed | NotFound

  datatype Target = BadName | Bare(name: string) | Below(name: string, parts: seq<string>, handler: Handler)

  /** sandboxSubpath: the routes of the SSH API, all POST. */
  function SshHandler(verb: string, sub: string): Option<Handler> {
    if sub == "ssh-session" then Some(if verb == "POST" then CreateSshSession else MethodNotAllowed)
    else if sub == "supervisor-token" then Some(if verb == "POST" then IssueSupervisorToken else MethodNotAllowed)
    else if sub == "exec" then Some(if verb == "POST" then Exec else MethodNotAllowed)
    else None
  }

  /** handleSandboxProposals. */
  function ProposalHandler(verb: string, sub: string): Handler {
    var rest := Trim(sub);
    if rest == "" && verb == "GET" then ListProposals
    else if rest == "" && verb == "POST" then CreateProposal
    else if rest != "" && SlashFree(rest) && verb == "GET" then GetProposal(rest)
    else if HasSuffix(rest, "/approve") && verb == "POST" then ApproveProposal(Trim(rest[..|rest| - |"/approve"|]))
    else if HasSuffix(rest, "/reject") && verb == "POST" then RejectProposal(Trim(rest[..|rest| - |"/reject"|]))
    else NotFound
  }

  /** handleSandboxSubpath. */
  function SubpathHandler(verb: string, parts: seq<string>): Handler
    requires |parts| >= 1
  {
    if |parts| == 1 && parts[0] == "effective-policy" && verb == "GET" then ReadEffectivePolicy
    else if |parts| == 1 && parts[0] == "policy" then
      if verb == "GET" then ReadPolicy else if verb == "PUT" || verb == "POST" then WritePolicy else MethodNotAllowed
    else if |parts| == 1 && parts[0] == "policy-revisions" && verb == "GET" then ReadRevisions
    else if |parts| == 1 && parts[0] == "providers" && verb == "GET" then ListProviders
    else if |parts| == 1 && parts[0] == "base-policy" && verb == "GET" then ReadBasePolicy
    else if |parts| == 1 && parts[0] == "secrets" && verb == "GET" then ReadSecrets
    else if |parts| == 1 && parts[0] == "logs" then
      if verb == "POST" then AppendLogs else if verb == "GET" then ReadLogs else MethodNotAllowed
    else if parts[0] == "proposals" then ProposalHandler(verb, Join(parts[1..]))
    else if |parts| == 2 && parts[0] == "providers" then
      if verb == "PUT" || verb == "POST" then AttachProvider(parts[1])
      else if verb == "DELETE" then DetachProvider(parts[1]) else MethodNotAllowed
    else NotFound
  }

  /** The handler of /v1/sandboxes/ down to the leaf that serves the request. */
  function Route(verb: string, path: string): Target {
    var rest := Trim(TrimPrefix(path, PREFIX));
    if rest == "" then BadName
    else
      var i := FirstSlash(rest);
      var name := rest[..i];
      if name == "" then BadName
      else if i == |rest| then Bare(name)
      else
        var sub := Trim(rest[i + 1..]);
        Below(name, Split(sub), LeafHandler(verb, sub))
  }

  /** The SSH API is asked first, then the other subpaths. */
  function LeafHandler(verb: string, sub: string): Handler {
    match SshHandler(verb, sub)
    case Some(handler) => handler
    case None => SubpathHandler(verb, Split(sub))
  }

  // --- The parsers agree ---

  lemma {:induction false} TrimRightTail(head: string, tail: string)
    requires head != ""
    ensures TrimRight(head + tail) == if TrimRight(tail) == "" then TrimRight(head) else head + TrimRight(tail)
    decreases |tail|
  {
    if tail == "" {
      assert head + tail == head;
    } else {
      assert (head + tail)[|head + tail| - 1] == tail[|tail| - 1];
      if tail[|tail| - 1] == '/' {
        assert (head + tail)[..|head + tail| - 1] == head + tail[..|tail| - 1];
        TrimRightTail(head, tail[..|tail| - 1]);
      }
    }
  }

  lemma {:induction false} TrimRightTwice(s: string)
    ensures TrimRight(TrimRight(s)) == TrimRight(s)
    ensures TrimRight(s) != "" ==> TrimRight(s)[|TrimRight(s)| - 1] != '/'
    decreases |s|
  {
    if s != "" && s[|s| - 1] == '/' {
      TrimRightTwice(s[..|s| - 1]);
    }
  }

  lemma {:induction false} SlashAtEnd(name: string, t: string)
    requires SlashFree(name)
    ensures FirstSlash(name + "/" + t) == |name|
  {
    if name != "" {
      assert (name + "/" + t)[1..] == name[1..] + "/" + t;
      assert name[0] in name;
      SlashAtEnd(name[1..], t);
    }
  }

  lemma TrimLeftKeeps(s: string)
    requires s != "" ==> s[0] != '/'
    ensures TrimLeft(s) == s
  {
  }

  lemma TrimName(name: string)
    requires name != "" && SlashFree(name)
    ensures TrimRight(name + "/") == name && name[0] != '/' && FirstSlash(name) == |name|
  {
    assert name[0] in name && name[|name| - 1] in name;
    assert (name + "/")[..|name|] == name;
    assert forall j | 0 <= j < |name| :: name[j] in name;
  }

  lemma TrimBelowName(name: string, tail: string)
    requires name != "" && SlashFree(name)
    ensures Trim(name + "/" + tail) == if TrimRight(tail) == "" then name else name + "/" + TrimRight(tail)
  {
    var head := name + "/";
    TrimName(name);
    TrimRightTail(head, tail);
    TrimLeftKeeps(TrimRight(head + tail));
  }

  lemma CutAtName(name: string, t: string)
    requires SlashFree(name)
    ensures var rest := name + "/" + t;
            FirstSlash(rest) == |name| < |rest| && rest[..|name|] == name && rest[|name| + 1..] == t
  {
    SlashAtEnd(name, t);
  }

  /** What the router cuts out of a path below a sandbox's own prefix. */
  lemma RouterCut(name: string, tail: string)
    requires name != "" && SlashFree(name)
    ensures var rest := Trim(name + "/" + tail);
            if TrimRight(tail) == "" then rest == name && FirstSlash(rest) == |rest|
            else FirstSlash(rest) == |name| < |rest| && rest[..|name|] == name && Trim(rest[|name| + 1..]) == Trim(tail)
  {
    TrimBelowName(name, tail);
    TrimName(name);
    CutAtName(name, TrimRight(tail));
    TrimRightTwice(tail);
  }

  lemma {:induction false} TrimLeftEnd(s: string)
    ensures TrimLeft(s) != "" ==> TrimLeft(s)[|TrimLeft(s)| - 1] == s[|s| - 1]
  {
    if s != "" && s[0] == '/' {
      TrimLeftEnd(s[1..]);
    }
  }

  lemma TrimEnd(s: string)
    ensures Trim(s) != "" ==> Trim(s)[|Trim(s)| - 1] != '/'
  {
    TrimRightTwice(s);
    TrimLeftEnd(TrimRight(s));
  }

  lemma {:induction false} SplitParts(s: string)
    ensures forall i | 0 <= i < |Split(s)| :: SlashFree(Split(s)[i])
    ensures s != "" && s[|s| - 1] != '/' ==> Split(s)[|Split(s)| - 1] != ""
    ensures SlashFree(s) ==> Split(s) == [s]
    decreases |s|
  {
    var i := FirstSlash(s);
    if i < |s| {
      SplitParts(s[i + 1..]);
    }
  }

  lemma SlashFreeIsTrimmed(s: string)
    requires SlashFree(s)
    ensures Trim(s) == s
  {
    if s != "" {
      assert s[0] in s && s[|s| - 1] in s;
    }
  }

  /** What a supervisor may do to its own sandbox. */
  predicate SelfService(handler: Handler) {
    || handler.ReadSecrets? || handler.AppendLogs? || handler.ReadPolicy? || handler.ReadEffectivePolicy?
    || handler.CreateProposal? || handler.GetProposal?
  }

  lemma ProposalSegmentsAgree(verb: string, parts: seq<string>)
    requires |parts| >= 1 && parts[0] == "proposals"
    requires forall i | 0 <= i < |parts| :: SlashFree(parts[i])
    requires parts[|parts| - 1] != ""
    ensures AllowedSegments(verb, parts) <==> SelfService(ProposalHandler(verb, Join(parts[1..]))) && |parts| <= 2
    ensures AllowedSegments(verb, parts) && |parts| == 2 ==>
              ProposalHandler(verb, Join(parts[1..])) == GetProposal(parts[1])
  {
    if |parts| == 2 {
      assert parts[1..] == [parts[1]];
      SlashFreeIsTrimmed(parts[1]);
    }
  }

  lemma OtherSegmentsAgree(verb: string, parts: seq<string>)
    requires |parts| >= 1 && parts[0] != "proposals"
    ensures AllowedSegments(verb, parts) <==> SelfService(SubpathHandler(verb, parts))
    ensures AllowedSegments(verb, parts) ==> |parts| == 1
  {
  }

  lemma SshSegmentsDenied(verb: string, sub: string)
    requires SshHandler(verb, sub).Some?
    ensures SlashFree(sub) && !AllowedSegments(verb, [sub]) && !SelfService(SshHandler(verb, sub).value)
  {
  }

  lemma SegmentsAgree(verb: string, sub: string)
    requires sub != "" ==> sub[|sub| - 1] != '/'
    ensures AllowedSegments(verb, Split(sub)) <==> SelfService(LeafHandler(verb, sub)) && |Split(sub)| <= 2
  {
    SplitParts(sub);
    if SshHandler(verb, sub).Some? {
      SshSegmentsDenied(verb, sub);
    } else if Split(sub)[0] == "proposals" {
      ProposalSegmentsAgree(verb, Split(sub));
      ProposalsAreServed(verb, Split(sub));
    } else {
      OtherSegmentsAgree(verb, Split(sub));
    }
  }

  lemma ProposalsAreServed(verb: string, parts: seq<string>)
    requires |parts| >= 1 && parts[0] == "proposals"
    ensures SubpathHandler(verb, parts) == ProposalHandler(verb, Join(parts[1..]))
  {
  }

  /**
   For every path below /v1/sandboxes/ the allowlist accepts exactly the requests that name the token's own sandbox
   right after the prefix, that the router sends to one of the self-service handlers of that sandbox, and that have at
   most two segments; and then both parsers see the same segments.
   */
  lemma ParsersAgree(paths: RelayPaths, verb: string, path: string, query: string, sandbox: string)
    requires Apart(paths) && sandbox != "" && SlashFree(sandbox) && PREFIX <= path
    ensures Allowed(paths, verb, path, query, sandbox) <==>
              && PREFIX + sandbox + "/" <= path
              && var target := Route(verb, path);
                 target.Below? && target.name == sandbox && SelfService(target.handler) && |target.parts| <= 2
    ensures Allowed(paths, verb, path, query, sandbox) ==>
              Route(verb, path).parts == Split(Trim(TrimPrefix(path, PREFIX + sandbox + "/")))
  {
    NotARelayPath(paths, path);
    var own := PREFIX + sandbox + "/";
    if own <= path {
      var tail := path[|own|..];
      assert path == own + tail;
      RouteBelow(verb, path, sandbox, tail);
      TrimEnd(tail);
      SegmentsAgree(verb, Trim(tail));
    }
  }

  /** Where the router sends a path below a sandbox's own prefix. */
  lemma RouteBelow(verb: string, path: string, sandbox: string, tail: string)
    requires sandbox != "" && SlashFree(sandbox) && path == PREFIX + sandbox + "/" + tail
    ensures Route(verb, path) == if TrimRight(tail) == "" then Bare(sandbox)
                                 else Below(sandbox, Split(Trim(tail)), LeafHandler(verb, Trim(tail)))
  {
    OwnTail(path, sandbox, tail);
    RouterCut(sandbox, tail);
  }

  lemma OwnTail(path: string, sandbox: string, tail: string)
    requires path == PREFIX + sandbox + "/" + tail
    ensures TrimPrefix(path, PREFIX) == sandbox + "/" + tail
  {
  }

  lemma NotARelayPath(paths: RelayPaths, path: string)
    requires Apart(paths) && PREFIX <= path
    ensures path != paths.connect && !(paths.relay <= path) && path != "/v1/whoami"
  {
    assert PREFIX[4] != "/v1/whoami"[4];
  }

  /** No request a supervisor token is allowed to make reaches the credential, exec, policy-writing, listing or decision
      handlers, or the sandbox record itself. */
  lemma AllowedReachesOnlySelfService(paths: RelayPaths, verb: string, path: string, query: string, sandbox: string)
    requires Apart(paths) && sandbox != "" && SlashFree(sandbox) && PREFIX <= path
    requires Allowed(paths, verb, path, query, sandbox)
    ensures var target := Route(verb, path);
            && !target.Bare? && !target.BadName? && target.name == sandbox
            && !target.handler.CreateSshSession? && !target.handler.IssueSupervisorToken? && !target.handler.Exec?
            && !target.handler.ListProposals? && !target.handler.ApproveProposal? && !target.handler.RejectProposal?
            && !target.handler.WritePolicy? && !target.handler.AttachProvider? && !target.handler.DetachProvider?
  {
    ParsersAgree(paths, verb, path, query, sandbox);
  }

  // --- The string functions ---

  function Slashes(n: nat): string { seq(n, _ => '/') }

  lemma {:induction false} TrimLeftStrips(s: string) returns (n: nat)
    ensures s == Slashes(n) + TrimLeft(s)
    ensures TrimLeft(s) != "" ==> TrimLeft(s)[0] != '/'
  {
    if s != "" && s[0] == '/' {
      var k := TrimLeftStrips(s[1..]);
      n := k + 1;
      assert s == ['/'] + s[1..] && Slashes(n) == ['/'] + Slashes(k);
    } else {
      n := 0;
    }
  }

  lemma {:induction false} TrimRightStrips(s: string) returns (n: nat)
    ensures s == TrimRight(s) + Slashes(n)
    decreases |s|
  {
    if s != "" && s[|s| - 1] == '/' {
      var k := TrimRightStrips(s[..|s| - 1]);
      n := k + 1;
      assert s == s[..|s| - 1] + ['/'] && Slashes(n) == Slashes(k) + ['/'];
    } else {
      n := 0;
    }
  }

  /** Trim takes off exactly the slashes at both ends. */
  lemma TrimStrips(s: string) returns (left: nat, right: nat)
    ensures s == Slashes(left) + Trim(s) + Slashes(right)
    ensures Trim(s) != "" ==> Trim(s)[0] != '/' && Trim(s)[|Trim(s)| - 1] != '/'
  {
    right := TrimRightStrips(s);
    left := TrimLeftStrips(TrimRight(s));
    TrimEnd(s);
  }

  lemma JoinCons(a: string, parts: seq<string>)
    requires parts != []
    ensures Join([a] + parts) == a + "/" + Join(parts)
  {
    assert ([a] + parts)[1..] == parts;
  }

  lemma SplitCons(a: string, t: string)
    requires SlashFree(a)
    ensures Split(a + "/" + t) == [a] + Split(t)
  {
    SlashAtEnd(a, t);
    assert (a + "/" + t)[..|a|] == a && (a + "/" + t)[|a| + 1..] == t;
  }

  /** Joining the segments of a path gives it back. */
  lemma {:induction false} SplitThenJoin(s: string)
    ensures Join(Split(s)) == s
    decreases |s|
  {
    if SlashFree(s) {
      SplitWord(s);
    } else {
      var a, t := CutFirst(s);
      SplitThenJoin(t);
      JoinAfterSlash(a, t);
    }
  }

  lemma CutFirst(s: string) returns (a: string, t: string)
    requires !SlashFree(s)
    ensures s == a + "/" + t && SlashFree(a)
  {
    var i := FirstSlash(s);
    a, t := s[..i], s[i + 1..];
  }

  lemma JoinAfterSlash(a: string, t: string)
    requires SlashFree(a) && Join(Split(t)) == t
    ensures Join(Split(a + "/" + t)) == a + "/" + t
  {
    SplitCons(a, t);
    JoinCons(a, Split(t));
  }

  lemma SplitWord(a: string)
    requires SlashFree(a)
    ensures Split(a) == [a]
  {
    SplitParts(a);
  }

  // --- The allowlist, request by request ---

  /** What a supervisor may ask of its own sandbox, by method and subpath. */
  ghost predicate SelfServiceRequest(verb: string, sub: string) {
    || (verb == "GET" && (sub == "secrets" || sub == "policy" || sub == "effective-policy"))
    || (verb == "POST" && (sub == "logs" || sub == "proposals"))
    || (verb == "GET" && exists id :: SlashFree(id) && sub == "proposals/" + id)
  }

  lemma SegmentsMean(verb: string, sub: string)
    ensures AllowedSegments(verb, Split(sub)) <==> SelfServiceRequest(verb, sub)
  {
    SplitParts(sub);
    SplitThenJoin(sub);
    WordsAreSlashFree();
    var parts := Split(sub);
    if |parts| == 1 {
      assert sub == parts[0];
      forall id ensures sub != "proposals/" + id {
        assert ("proposals/" + id)[9] == '/';
      }
    } else if |parts| == 2 && parts[0] == "proposals" {
      assert parts[1..] == [parts[1]] && sub == "proposals" + "/" + parts[1];
      assert "proposals" + "/" + parts[1] == "proposals/" + parts[1];
    } else {
      forall id | SlashFree(id) && sub == "proposals/" + id ensures false {
        assert sub == "proposals" + "/" + id;
        SplitCons("proposals", id);
        SplitWord(id);
      }
      NoWordHasMoreSegments(sub);
    }
  }

  lemma WordsAreSlashFree()
    ensures SlashFree("secrets") && SlashFree("policy") && SlashFree("effective-policy")
    ensures SlashFree("logs") && SlashFree("proposals") && SlashFree("providers")
    ensures SlashFree("approve") && SlashFree("reject")
  {
  }

  lemma NoWordHasMoreSegments(sub: string)
    requires |Split(sub)| != 1
    ensures sub != "secrets" && sub != "policy" && sub != "effective-policy" && sub != "logs" && sub != "proposals"
  {
    WordsAreSlashFree();
    if SlashFree(sub) {
      SplitWord(sub);
    }
  }

  /** The whole allowlist: the two relay paths and whoami by GET, the connect path only for the token's own sandbox, and
      below the own prefix exactly the self-service requests, slashes at the ends of the subpath aside. */
  lemma AllowedIff(paths: RelayPaths, verb: string, path: string, query: string, sandbox: string)
    ensures Allowed(paths, verb, path, query, sandbox) <==>
              if path == paths.connect then verb == "GET" && query == sandbox
              else if paths.relay <= path || path == "/v1/whoami" then verb == "GET"
              else
                exists tail :: path == "/v1/sandboxes/" + sandbox + "/" + tail && SelfServiceRequest(verb, Trim(tail))
  {
    var own := PREFIX + sandbox + "/";
    if own <= path {
      var tail := path[|own|..];
      assert path == "/v1/sandboxes/" + sandbox + "/" + tail;
      SegmentsMean(verb, Trim(tail));
      assert forall t :: path == "/v1/sandboxes/" + sandbox + "/" + t ==> t == path[|own|..];
    }
  }

  // --- The router, request by request ---

  /** The method and subpath of a request that is meant for a handler. */
  function RequestFor(handler: Handler): (string, string)
    requires !handler.MethodNotAllowed? && !handler.NotFound?
  {
    match handler
    case CreateSshSession => ("POST", "ssh-session")
    case IssueSupervisorToken => ("POST", "supervisor-token")
    case Exec => ("POST", "exec")
    case ReadEffectivePolicy => ("GET", "effective-policy")
    case ReadPolicy => ("GET", "policy")
    case WritePolicy => ("PUT", "policy")
    case ReadBasePolicy => ("GET", "base-policy")
    case ReadRevisions => ("GET", "policy-revisions")
    case ListProviders => ("GET", "providers")
    case AttachProvider(provider) => ("PUT", "providers/" + provider)
    case DetachProvider(provider) => ("DELETE", "providers/" + provider)
    case ReadSecrets => ("GET", "secrets")
    case AppendLogs => ("POST", "logs")
    case ReadLogs => ("GET", "logs")
    case ListProposals => ("GET", "proposals")
    case CreateProposal => ("POST", "proposals")
    case GetProposal(id) => ("GET", "proposals/" + id)
    case ApproveProposal(id) => ("POST", "proposals/" + id + "/approve")
    case RejectProposal(id) => ("POST", "proposals/" + id + "/reject")
  }

  /** Names in requests are single, non-empty segments. */
  predicate WellNamed(handler: Handler) {
    match handler
    case AttachProvider(provider) => provider != "" && SlashFree(provider)
    case DetachProvider(provider) => provider != "" && SlashFree(provider)
    case GetProposal(id) => id != "" && SlashFree(id)
    case ApproveProposal(id) => id != "" && SlashFree(id)
    case RejectProposal(id) => id != "" && SlashFree(id)
    case MethodNotAllowed => false
    case NotFound => false
    case _ => true
  }

  lemma ProviderRequest(verb: string, provider: string)
    requires SlashFree(provider)
    ensures LeafHandler(verb, "providers/" + provider) ==
              if verb == "PUT" || verb == "POST" then AttachProvider(provider)
              else if verb == "DELETE" then DetachProvider(provider) else MethodNotAllowed
  {
    var sub := "providers/" + provider;
    assert sub == "providers" + "/" + provider && sub[0] == 'p';
    WordsAreSlashFree();
    SplitCons("providers", provider);
    SplitWord(provider);
  }

  lemma ProposalRequest(verb: string, rest: string)
    ensures LeafHandler(verb, "proposals/" + rest) == ProposalHandler(verb, rest)
  {
    NotSsh(verb, "proposals/" + rest);
    SplitProposals(rest);
    SplitThenJoin(rest);
    ServedAsProposal(verb, Split(rest));
  }

  lemma NotSsh(verb: string, sub: string)
    requires sub != "" && sub[0] == 'p'
    ensures SshHandler(verb, sub).None?
  {
  }

  lemma ServedAsProposal(verb: string, rest: seq<string>)
    ensures SubpathHandler(verb, ["proposals"] + rest) == ProposalHandler(verb, Join(rest))
  {
    var parts := ["proposals"] + rest;
    assert parts[1..] == rest;
    ProposalsAreServed(verb, parts);
  }

  lemma SplitProposals(rest: string)
    ensures Split("proposals/" + rest) == ["proposals"] + Split(rest)
  {
    assert "proposals/" + rest == "proposals" + "/" + rest;
    WordsAreSlashFree();
    SplitCons("proposals", rest);
  }

  lemma Untrimmed(s: string)
    requires s != "" && s[0] != '/' && s[|s| - 1] != '/'
    ensures Trim(s) == s
  {
  }

  lemma DecisionRequest(id: string)
    requires id != "" && SlashFree(id)
    ensures ProposalHandler("POST", id + "/approve") == ApproveProposal(id)
    ensures ProposalHandler("POST", id + "/reject") == RejectProposal(id)
  {
    assert id[0] in id;
    SlashFreeIsTrimmed(id);
    var a, r := id + "/approve", id + "/reject";
    Untrimmed(a);
    Untrimmed(r);
    assert a[|a| - 8..] == "/approve" && a[..|a| - 8] == id;
    assert r[|r| - 7..] == "/reject" && r[..|r| - 7] == id;
    assert r[|r| - 1] != "/approve"[7];
  }

  lemma WordLeaf(verb: string, sub: string)
    requires SlashFree(sub)
    ensures LeafHandler(verb, sub) ==
              if SshHandler(verb, sub).Some? then SshHandler(verb, sub).value else SubpathHandler(verb, [sub])
  {
    SplitWord(sub);
  }

  lemma SshWords(verb: string, sub: string)
    requires SlashFree(sub)
    ensures verb == "POST" && sub == "ssh-session" ==> LeafHandler(verb, sub) == CreateSshSession
    ensures verb == "POST" && sub == "supervisor-token" ==> LeafHandler(verb, sub) == IssueSupervisorToken
    ensures verb == "POST" && sub == "exec" ==> LeafHandler(verb, sub) == Exec
    ensures verb != "POST" && (sub == "ssh-session" || sub == "supervisor-token" || sub == "exec") ==>
              LeafHandler(verb, sub) == MethodNotAllowed
  {
    WordLeaf(verb, sub);
  }

  lemma PolicyWords(verb: string, sub: string)
    requires SlashFree(sub)
    ensures sub == "policy" ==>
              LeafHandler(verb, sub) == if verb == "GET" then ReadPolicy
                                        else if verb == "PUT" || verb == "POST" then WritePolicy else MethodNotAllowed
    ensures sub == "effective-policy" ==>
              LeafHandler(verb, sub) == if verb == "GET" then ReadEffectivePolicy else NotFound
    ensures sub == "base-policy" ==> LeafHandler(verb, sub) == if verb == "GET" then ReadBasePolicy else NotFound
    ensures sub == "policy-revisions" ==> LeafHandler(verb, sub) == if verb == "GET" then ReadRevisions else NotFound
  {
    WordLeaf(verb, sub);
  }

  lemma OtherWords(verb: string, sub: string)
    requires SlashFree(sub)
    ensures sub == "providers" ==> LeafHandler(verb, sub) == if verb == "GET" then ListProviders else NotFound
    ensures sub == "secrets" ==> LeafHandler(verb, sub) == if verb == "GET" then ReadSecrets else NotFound
    ensures sub == "logs" ==>
              LeafHandler(verb, sub) == if verb == "POST" then AppendLogs
                                        else if verb == "GET" then ReadLogs else MethodNotAllowed
    ensures sub == "proposals" && verb == "GET" ==> LeafHandler(verb, sub) == ListProposals
    ensures sub == "proposals" && verb == "POST" ==> LeafHandler(verb, sub) == CreateProposal
  {
    WordLeaf(verb, sub);
    assert [sub][1..] == [];
    SlashFreeIsTrimmed("");
  }

  /** Requests whose subpath is a single word. */
  lemma WordRequest(handler: Handler)
    requires WellNamed(handler) && !handler.AttachProvider? && !handler.DetachProvider?
    requires !handler.GetProposal? && !handler.ApproveProposal? && !handler.RejectProposal?
    ensures LeafHandler(RequestFor(handler).0, RequestFor(handler).1) == handler && SlashFree(RequestFor(handler).1)
  {
    var (verb, sub) := RequestFor(handler);
    SshWords(verb, sub);
    PolicyWords(verb, sub);
    OtherWords(verb, sub);
  }

  /** Requests with a name in them. */
  lemma NamedRequest(handler: Handler)
    requires WellNamed(handler)
    requires handler.AttachProvider? || handler.DetachProvider? || handler.GetProposal?
    ensures var (verb, sub) := RequestFor(handler); LeafHandler(verb, sub) == handler && sub[|sub| - 1] != '/'
  {
    if handler.GetProposal? {
      ProposalRequest("GET", handler.id);
      SlashFreeIsTrimmed(handler.id);
      assert handler.id[|handler.id| - 1] in handler.id;
    } else {
      ProviderRequest(RequestFor(handler).0, handler.provider);
      assert handler.provider[|handler.provider| - 1] in handler.provider;
    }
  }

  lemma LeafRequest(handler: Handler)
    requires WellNamed(handler)
    ensures var (verb, sub) := RequestFor(handler);
            LeafHandler(verb, sub) == handler && sub != "" && sub[0] != '/' && sub[|sub| - 1] != '/'
  {
    var sub := RequestFor(handler).1;
    if handler.AttachProvider? || handler.DetachProvider? || handler.GetProposal? {
      NamedRequest(handler);
    } else if handler.ApproveProposal? || handler.RejectProposal? {
      var verdict := if handler.ApproveProposal? then "/approve" else "/reject";
      ProposalRequest("POST", handler.id + verdict);
      DecisionRequest(handler.id);
      assert sub == "proposals/" + (handler.id + verdict);
    } else {
      WordRequest(handler);
      assert sub != "" && sub[0] in sub && sub[|sub| - 1] in sub;
    }
  }

  /** Every request reaches the handler it is meant for, with the sandbox and the id it names. */
  lemma RequestsReachTheirHandlers(name: string, handler: Handler)
    requires name != "" && SlashFree(name) && WellNamed(handler)
    ensures var (verb, sub) := RequestFor(handler);
            var target := Route(verb, "/v1/sandboxes/" + name + "/" + sub);
            target.Below? && target.name == name && target.handler == handler
  {
    var (verb, sub) := RequestFor(handler);
    LeafRequest(handler);
    Untrimmed(sub);
    RouteBelow(verb, "/v1/sandboxes/" + name + "/" + sub, name, sub);
  }

  /** A sandbox path without a subpath goes to the sandbox record, one without a name is refused. */
  lemma BareRequests(name: string)
    requires SlashFree(name)
    ensures Route("GET", "/v1/sandboxes/" + name) == if name == "" then BadName else Bare(name)
  {
    SlashFreeIsTrimmed(name);
    assert ("/v1/sandboxes/" + name)[|PREFIX|..] == name;
  }
}
