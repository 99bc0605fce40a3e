/** What lies below and beside the transports: the base HTTP transport, the
    SSPI security provider and the advapi32 logon calls. Each is an oracle
    whose answers are fixed in advance (a script consumed call by call, or a
    single outcome), and every call is recorded, in order, in one event log. */
module Platform {
  import opened Outcomes
  import opened Base64
  import opened Http

  /** An opaque SSPI token. The empty token stands for Go's nil slice. */
  type Token = seq<byte>

  /** What one base-transport call yields. */
  datatype SendOutcome = Delivered(resp: Response) | TransportError(err: string)

  /** What one `ctx.Update` call yields: the context's done flag and the
      next outgoing token, or an error. */
  datatype UpdateOutcome = Advanced(done: bool, token: Token) | UpdateFailed(err: string)

  /** Logon kinds of `LogonUserW`. */
  const LogonInteractive := 2
  const LogonNewCredentials := 9

  datatype Event =
    | Sent(request: Wire)
    | CredentialsAcquire
    | CredentialsRelease
    | ContextCreate(spn: string)
    | ContextUpdate(input: Token)
    | ContextRelease
    | ThreadLock
    | ThreadUnlock
    | Logon(user: string, domain: Option<string>, password: string, logonType: int)
    | Impersonate
    | Revert
    | TokenClose

  /** All oracle answers: `sends[k]` answers the `k`-th base-transport call
      and `updates[k]` the `k`-th `ctx.Update` call; the others answer the
      single call a round trip makes. An `Option` error is `None` on success. */
  datatype Env = Env(
    sends: seq<SendOutcome>,
    updates: seq<UpdateOutcome>,
    credentials: Option<string>,
    context: Result<Token>,
    hostname: Result<string>,
    interactiveLogon: Option<string>,
    newCredentialsLogon: Option<string>,
    impersonation: Option<string>)

  /** The answer to the call made after `k` earlier ones; a script that
      has run out answers with a failure. */
  function NextSend(env: Env, k: nat): SendOutcome
  {
    if k < |env.sends| then env.sends[k] else TransportError("no scripted response")
  }

  function NextUpdate(env: Env, k: nat): UpdateOutcome
  {
    if k < |env.updates| then env.updates[k] else UpdateFailed("no scripted update")
  }

  /** The answer `LogonUserW` gives for a logon kind. */
  function LogonAnswer(env: Env, logonType: int): Option<string>
  {
    if logonType == LogonInteractive then env.interactiveLogon
    else if logonType == LogonNewCredentials then env.newCredentialsLogon
    else Some("The parameter is incorrect.")
  }

  /** `logonUserW` passes a nil domain pointer for an empty domain. */
  function DomainArgument(domain: string): (d: Option<string>)
    ensures d.None? <==> domain == ""
  {
    if domain == "" then None else Some(domain)
  }

  /** The platform: the fixed answers of its oracles, how many calls of
      each scripted kind were made, and the log of every call. */
  class Host {
    var log: seq<Event>
    var sent: nat
    var updated: nat
    const sends: seq<SendOutcome>
    const updates: seq<UpdateOutcome>
    const credentials: Option<string>
    const context: Result<Token>
    const hostname: Result<string>
    const interactiveLogon: Option<string>
    const newCredentialsLogon: Option<string>
    const impersonation: Option<string>

    constructor (env: Env)
      ensures Oracles() == env && log == [] && sent == 0 && updated == 0
    {
      log, sent, updated := [], 0, 0;
      sends, updates := env.sends, env.updates;
      credentials, context, hostname := env.credentials, env.context, env.hostname;
      interactiveLogon, newCredentialsLogon := env.interactiveLogon, env.newCredentialsLogon;
      impersonation := env.impersonation;
    }

    /** The answers the oracles give. */
    function Oracles(): Env
    {
      Env(sends, updates, credentials, context, hostname, interactiveLogon, newCredentialsLogon, impersonation)
    }

    /** `base.RoundTrip(r)`: the answer is the script's next one. Like every
        `http.RoundTripper`, the base transport consumes the request body it
        is handed and closes it, whether or not the send succeeds. */
    method Send(r: Request) returns (o: SendOutcome)
      modifies this, r.body
      ensures o == NextSend(Oracles(), old(sent)) && sent == old(sent) + 1 && updated == old(updated)
      ensures log == old(log) + [Sent(old(r.Snapshot()))]
      ensures r.body != null ==> r.body.data == [] && r.body.readCount == old(r.body.readCount) + 1 && r.body.closed
    {
      o := NextSend(Oracles(), sent);
      sent := sent + 1;
      log := log + [Sent(r.Snapshot())];
      if r.body != null {
        var consumed := r.body.ReadAll();
        r.body.Close();
      }
    }

    /** `negotiate.AcquireCurrentUserCredentials`. */
    method AcquireCredentials() returns (err: Option<string>)
      modifies this
      ensures err == credentials && sent == old(sent) && updated == old(updated)
      ensures log == old(log) + [CredentialsAcquire]
    {
      err := credentials;
      log := log + [CredentialsAcquire];
    }

    /** `cred.Release`. */
    method ReleaseCredentials()
      modifies this
      ensures sent == old(sent) && updated == old(updated) && log == old(log) + [CredentialsRelease]
    {
      log := log + [CredentialsRelease];
    }

    /** `negotiate.NewClientContext`: the initial token, or an error. */
    method NewClientContext(spn: string) returns (r: Result<Token>)
      modifies this
      ensures r == context && sent == old(sent) && updated == old(updated)
      ensures log == old(log) + [ContextCreate(spn)]
    {
      r := context;
      log := log + [ContextCreate(spn)];
    }

    /** `ctx.Update(input)`. */
    method Update(input: Token) returns (o: UpdateOutcome)
      modifies this
      ensures o == NextUpdate(Oracles(), old(updated)) && updated == old(updated) + 1 && sent == old(sent)
      ensures log == old(log) + [ContextUpdate(input)]
    {
      o := NextUpdate(Oracles(), updated);
      updated := updated + 1;
      log := log + [ContextUpdate(input)];
    }

    /** `ctx.Release`. */
    method ReleaseContext()
      modifies this
      ensures sent == old(sent) && updated == old(updated) && log == old(log) + [ContextRelease]
    {
      log := log + [ContextRelease];
    }

    /** `os.Hostname`. */
    function Hostname(): Result<string>
    {
      hostname
    }

    method LockOSThread()
      modifies this
      ensures sent == old(sent) && updated == old(updated) && log == old(log) + [ThreadLock]
    {
      log := log + [ThreadLock];
    }

    method UnlockOSThread()
      modifies this
      ensures sent == old(sent) && updated == old(updated) && log == old(log) + [ThreadUnlock]
    {
      log := log + [ThreadUnlock];
    }

    /** `logonUserW(user, domain, password, logonType, LOGON32_PROVIDER_DEFAULT)`. */
    method LogonUser(user: string, domain: string, password: string, logonType: int) returns (err: Option<string>)
      modifies this
      ensures err == LogonAnswer(Oracles(), logonType) && sent == old(sent) && updated == old(updated)
      ensures log == old(log) + [Logon(user, DomainArgument(domain), password, logonType)]
    {
      err := LogonAnswer(Oracles(), logonType);
      log := log + [Logon(user, DomainArgument(domain), password, logonType)];
    }

    /** `impersonateLoggedOnUser(token)`. */
    method ImpersonateLoggedOnUser() returns (err: Option<string>)
      modifies this
      ensures err == impersonation && sent == old(sent) && updated == old(updated)
      ensures log == old(log) + [Impersonate]
    {
      err := impersonation;
      log := log + [Impersonate];
    }

    /** `revertToSelf`; its error is ignored by the caller. */
    method RevertToSelf()
      modifies this
      ensures sent == old(sent) && updated == old(updated) && log == old(log) + [Revert]
    {
      log := log + [Revert];
    }

    /** `token.Close`. */
    method CloseToken()
      modifies this
      ensures sent == old(sent) && updated == old(updated) && log == old(log) + [TokenClose]
    {
      log := log + [TokenClose];
    }
  }
}
