/** The impersonating transport of
    internal/client/negotiate_impersonate_windows.go: the account name is
    split into a domain and a user once, at construction; every round trip
    pins the thread, logs the user on (interactively, else with new
    credentials), impersonates the token and hands the request to a fresh
    Negotiate transport, then undoes what it did in reverse order. */
module Impersonate {
  import opened Outcomes
  import opened Strings
  import opened Base64
  import opened Http
  import opened Platform
  import opened Negotiate

  // ---------------------------------------------------------------------
  // The account name

  /** Lines 62-68: `DOMAIN\user` splits at its first backslash when that
      backslash is not the first character; any other name is a user of
      the empty domain. */
  function SplitDomainUser(input: string): (r: (string, string))
    ensures r.0 != "" <==> '\\' in input && input[0] != '\\'
    ensures r.0 != "" ==> r.0 + ['\\'] + r.1 == input && '\\' !in r.0
    ensures r.0 == "" ==> r.1 == input
  {
    var i := IndexOf(input, '\\');
    if i > 0 then
      assert input == input[..i] + ['\\'] + input[i + 1..];
      (input[..i], input[i + 1..])
    else ("", input)
  }

  /** Joining a non-empty domain without a backslash to any user name and
      splitting the result gives both parts back; the user part may itself
      hold backslashes. */
  lemma SplitJoin(domain: string, user: string)
    requires domain != "" && '\\' !in domain
    ensures SplitDomainUser(domain + ['\\'] + user) == (domain, user)
  {
    var input := domain + ['\\'] + user;
    assert input[..|domain|] == domain && input[|domain|] == '\\';
    assert input[|domain| + 1..] == user;
  }

  /** A name that starts with a backslash is kept whole as the user. */
  lemma LeadingBackslashStaysInUser(input: string)
    requires input != [] && input[0] == '\\'
    ensures SplitDomainUser(input) == ("", input)
  {
  }

  // ---------------------------------------------------------------------
  // A round trip as a function of the oracles' answers

  /** The two `logonUserW` calls of lines 42-46 and the error that remains:
      the new-credentials logon is tried only after the interactive one
      failed. */
  function Logons(domain: string, user: string, password: string, env: Env): (r: (seq<Event>, Option<string>))
    ensures 1 <= |r.0| <= 2 && r.0[0] == Logon(user, DomainArgument(domain), password, LogonInteractive)
    ensures |r.0| == 2 <==> LogonAnswer(env, LogonInteractive).Some?
    ensures |r.0| == 2 ==> r.0[1] == Logon(user, DomainArgument(domain), password, LogonNewCredentials)
    ensures r.1.None? <==> LogonAnswer(env, LogonInteractive).None? || LogonAnswer(env, LogonNewCredentials).None?
    ensures r.1.Some? ==> r.1 == LogonAnswer(env, LogonNewCredentials)
  {
    var interactive := Logon(user, DomainArgument(domain), password, LogonInteractive);
    var fallback := Logon(user, DomainArgument(domain), password, LogonNewCredentials);
    match LogonAnswer(env, LogonInteractive)
    case None => ([interactive], None)
    case Some(_) => ([interactive, fallback], LogonAnswer(env, LogonNewCredentials))
  }

  /** Lines 30-60: what `impersonateTransport.RoundTrip` returns and calls,
      given the request as the Negotiate transport will see it (`first`,
      and `replay` once its body is cached). The thread stays locked from
      the first call to the last. */
  function Impersonation(domain: string, user: string, password: string, first: Wire, replay: Option<seq<byte>>,
                         env: Env, sent: nat, updated: nat): (run: Run)
    ensures !Delegates(env) ==> run.result.Err? && run.sent == sent && run.updated == updated
  {
    var attempts := Logons(domain, user, password, env);
    if attempts.1.Some? then
      Run(Err(attempts.1.value), [ThreadLock] + attempts.0 + [ThreadUnlock], sent, updated)
    else
      var r := Impersonated(first, replay, env, sent, updated);
      Run(r.result, [ThreadLock] + attempts.0 + r.events + [ThreadUnlock], r.sent, r.updated)
  }

  /** Lines 50-59, once a logon gave a token: the token is closed on every
      path, and the identity is reverted (before that) only when it was
      assumed. */
  function Impersonated(first: Wire, replay: Option<seq<byte>>, env: Env, sent: nat, updated: nat): (run: Run)
    ensures env.impersonation.Some? ==> run == Run(Err(env.impersonation.value), [Impersonate, TokenClose], sent, updated)
  {
    if env.impersonation.Some? then
      Run(Err(env.impersonation.value), [Impersonate, TokenClose], sent, updated)
    else
      var run := Exchange(first, replay, env, sent, updated);
      Run(run.result, [Impersonate] + run.events + [Revert, TokenClose], run.sent, run.updated)
  }

  /** Whether the round trip reaches the Negotiate transport: a logon and
      the impersonation succeeded. */
  predicate Delegates(env: Env)
  {
    (env.interactiveLogon.None? || env.newCredentialsLogon.None?) && env.impersonation.None?
  }

  /** Stated once so that callers need not prove it on large terms. */
  lemma Regroup(l: seq<Event>, a: seq<Event>, b: seq<Event>, c: seq<Event>, d: seq<Event>)
    ensures l + a + b + c + d == l + (a + b + c + d)
  {
  }

  // ---------------------------------------------------------------------
  // The transport

  class ImpersonateTransport {
    const platform: Host
    const domain: string
    const username: string
    const password: string

    /** Lines 18-21. */
    constructor (platform: Host, username: string, password: string)
      ensures this.platform == platform && this.password == password
      ensures (domain, this.username) == SplitDomainUser(username)
    {
      this.platform := platform;
      var split := SplitDomainUser(username);
      this.domain, this.username := split.0, split.1;
      this.password := password;
    }

    /** Lines 32 and 39-46: the thread is locked, then the interactive
        logon is tried, and the new-credentials one when it failed. */
    method LockAndLogOn() returns (err: Option<string>)
      modifies platform
      ensures var attempts := Logons(domain, username, password, platform.Oracles());
        platform.log == old(platform.log) + [ThreadLock] + attempts.0 && err == attempts.1
      ensures platform.sent == old(platform.sent) && platform.updated == old(platform.updated)
    {
      platform.LockOSThread();
      err := platform.LogonUser(username, domain, password, LogonInteractive);
      if err.Some? {
        err := platform.LogonUser(username, domain, password, LogonNewCredentials);
      }
    }

    /** Lines 30-60. */
    method RoundTrip(req: Request) returns (res: Result<Response>)
      modifies req, req.body, platform
      ensures req.header == old(req.header) && req.host == old(req.host)
      ensures req.replay == if Delegates(platform.Oracles()) then old(ReplayAfterCaching(req)) else old(req.replay)
      ensures Delegates(platform.Oracles()) && old(req.body) != null && old(req.replay).None? ==>
        && fresh(req.body) && req.contentLength == |old(req.body.data)|
        && old(req.body).readCount == old(req.body.readCount) + 1 && old(req.body).closed
      ensures !(Delegates(platform.Oracles()) && old(req.body) != null && old(req.replay).None?) ==>
        req.body == old(req.body) && req.contentLength == old(req.contentLength)
      ensures Delegates(platform.Oracles()) && req.body != null ==>
        && req.body.data == [] && req.body.closed
        && req.body.readCount == if old(req.replay).None? then 1 else old(req.body.readCount) + 1
      ensures !(Delegates(platform.Oracles())) && req.body != null ==> unchanged(req.body)
      ensures var run := Impersonation(domain, username, password, old(req.Snapshot()), old(ReplayAfterCaching(req)),
                                       platform.Oracles(), old(platform.sent), old(platform.updated));
        Run(res, platform.log, platform.sent, platform.updated) == Prepend(old(platform.log), run)
    {
      ghost var log0 := platform.log;
      ghost var spec := Impersonation(domain, username, password, req.Snapshot(), ReplayAfterCaching(req),
                                      platform.Oracles(), platform.sent, platform.updated);
      ghost var attempts := Logons(domain, username, password, platform.Oracles());
      ghost var r := Impersonated(req.Snapshot(), ReplayAfterCaching(req), platform.Oracles(),
                                  platform.sent, platform.updated);
      var err := LockAndLogOn();
      if err.Some? {
        platform.UnlockOSThread();
        res := Err(err.value);
        assert spec == Run(res, [ThreadLock] + attempts.0 + [ThreadUnlock], platform.sent, platform.updated);
        return;
      }
      assert spec == Run(r.result, [ThreadLock] + attempts.0 + r.events + [ThreadUnlock], r.sent, r.updated);
      ghost var log1 := platform.log;
      res := Impersonating(req);
      assert platform.log == log1 + r.events && res == r.result;
      platform.UnlockOSThread();
      Regroup(log0, [ThreadLock], attempts.0, r.events, [ThreadUnlock]);
    }

    /** Lines 50-59. */
    method Impersonating(req: Request) returns (res: Result<Response>)
      modifies req, req.body, platform
      ensures req.header == old(req.header) && req.host == old(req.host)
      ensures req.replay == if platform.impersonation.None? then old(ReplayAfterCaching(req)) else old(req.replay)
      ensures platform.impersonation.None? && old(req.body) != null && old(req.replay).None? ==>
        && fresh(req.body) && req.contentLength == |old(req.body.data)|
        && old(req.body).readCount == old(req.body.readCount) + 1 && old(req.body).closed
      ensures !(platform.impersonation.None? && old(req.body) != null && old(req.replay).None?) ==>
        req.body == old(req.body) && req.contentLength == old(req.contentLength)
      ensures platform.impersonation.None? && req.body != null ==>
        && req.body.data == [] && req.body.closed
        && req.body.readCount == if old(req.replay).None? then 1 else old(req.body.readCount) + 1
      ensures !(platform.impersonation.None?) && req.body != null ==> unchanged(req.body)
      ensures var r := Impersonated(old(req.Snapshot()), old(ReplayAfterCaching(req)), platform.Oracles(),
                                    old(platform.sent), old(platform.updated));
        Run(res, platform.log, platform.sent, platform.updated) == Prepend(old(platform.log), r)
    {
      ghost var log0 := platform.log;
      var denied := platform.ImpersonateLoggedOnUser();
      if denied.Some? {
        platform.CloseToken();
        res := Err(denied.value);
        return;
      }
      ghost var run := Exchange(req.Snapshot(), ReplayAfterCaching(req), platform.Oracles(),
                                platform.sent, platform.updated);
      ghost var log1 := platform.log;
      res := Delegate(req);
      assert platform.log == log1 + run.events && res == run.result;
      platform.RevertToSelf();
      platform.CloseToken();
      Regroup(log0, [Impersonate], run.events, [Revert], [TokenClose]);
      assert [Impersonate] + run.events + [Revert] + [TokenClose] == [Impersonate] + run.events + [Revert, TokenClose];
    }

    /** Lines 58-59: a fresh Negotiate transport over the same platform
        carries the request. */
    method Delegate(req: Request) returns (res: Result<Response>)
      modifies req, req.body, platform
      ensures req.header == old(req.header) && req.host == old(req.host)
      ensures req.replay == old(ReplayAfterCaching(req))
      ensures old(req.body) != null && old(req.replay).None? ==>
        && fresh(req.body) && req.contentLength == |old(req.body.data)|
        && old(req.body).readCount == old(req.body.readCount) + 1 && old(req.body).closed
      ensures !(old(req.body) != null && old(req.replay).None?) ==>
        req.body == old(req.body) && req.contentLength == old(req.contentLength)
      ensures req.body != null ==>
        && req.body.data == [] && req.body.closed
        && req.body.readCount == if old(req.replay).None? then 1 else old(req.body.readCount) + 1
      ensures var run := Exchange(old(req.Snapshot()), old(ReplayAfterCaching(req)), platform.Oracles(),
                                  old(platform.sent), old(platform.updated));
        Run(res, platform.log, platform.sent, platform.updated) == Prepend(old(platform.log), run)
    {
      var rt := new NegotiateTransport(platform);
      res := rt.RoundTrip(req);
    }
  }
}
