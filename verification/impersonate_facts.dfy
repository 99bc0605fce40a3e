/** What the impersonating round trip promises, stated on `Impersonation`:
    at most two logons and interactive first, the Negotiate transport
    reached only with an impersonated token, and the thread, the token and
    the impersonation released in the reverse order of their acquisition. */
module ImpersonateFacts {
  import opened Outcomes
  import opened Base64
  import opened Http
  import opened Platform
  import opened Negotiate
  import opened NegotiateFacts
  import opened Impersonate

  /** A call the Negotiate transport makes: the base transport or SSPI. */
  predicate Negotiating(e: Event)
  {
    e.Sent? || e.CredentialsAcquire? || e.CredentialsRelease?
    || e.ContextCreate? || e.ContextUpdate? || e.ContextRelease?
  }

  lemma NegotiationStaysInside(base: Wire, inToken: Token, last: Response, env: Env, sent: nat, updated: nat)
    ensures var evs := Negotiation(base, inToken, last, env, sent, updated).events;
      forall k :: 0 <= k < |evs| ==> Negotiating(evs[k])
  {
    var evs := Negotiation(base, inToken, last, env, sent, updated).events;
    NegotiationOrder(base, inToken, last, env, sent, updated);
    if env.credentials.None? && env.context.Ok? {
      var n := |evs|;
      forall k | 0 <= k < n ensures Negotiating(evs[k]) {
        if k < 2 {
          assert evs[k] == evs[..2][k];
        } else if k >= n - 2 {
          assert evs[k] == evs[n - 2..][k - (n - 2)];
        } else {
          assert evs[k] == evs[2..n - 2][k - 2];
        }
      }
    }
  }

  /** The Negotiate transport calls only the base transport and SSPI: it
      never logs on, impersonates, reverts, closes a token or touches the
      thread lock. */
  lemma ExchangeStaysInside(first: Wire, replay: Option<seq<byte>>, env: Env, sent: nat, updated: nat)
    ensures var evs := Exchange(first, replay, env, sent, updated).events;
      forall k :: 0 <= k < |evs| ==> Negotiating(evs[k])
  {
    var o := NextSend(env, sent);
    if o.Delivered? && o.resp.status == StatusUnauthorized {
      var base := Wire(first.header, first.host, replay);
      var values := Values(o.resp.header, WwwAuthenticate);
      var ch := Challenged(base, o.resp, env, sent + 1, updated);
      assert Exchange(first, replay, env, sent, updated).events == [Sent(first)] + ch.events;
      if FirstChallenge(values, Scheme).Some? {
        NegotiationStaysInside(base, InitialToken(values), Drained(o.resp), env, sent + 1, updated);
      }
    }
  }

  /** Lines 39-46 and 18-21: the interactive logon is tried first and the
      new-credentials one only after it failed, so a round trip makes one
      or two logon attempts, right after locking the thread, each with the
      domain, user and password fixed at construction. */
  lemma LogonAttempts(domain: string, user: string, password: string, first: Wire, replay: Option<seq<byte>>,
                      env: Env, sent: nat, updated: nat)
    ensures var evs := Impersonation(domain, user, password, first, replay, env, sent, updated).events;
      var m := if env.interactiveLogon.Some? then 2 else 1;
      && |evs| > m
      && (forall k :: 0 <= k < |evs| ==> (evs[k].Logon? <==> 1 <= k <= m))
      && evs[1] == Logon(user, DomainArgument(domain), password, LogonInteractive)
      && (m == 2 ==> evs[2] == Logon(user, DomainArgument(domain), password, LogonNewCredentials))
  {
    var evs := Impersonation(domain, user, password, first, replay, env, sent, updated).events;
    CleanupLastInFirstOut(domain, user, password, first, replay, env, sent, updated);
    assert Nested(evs, 1 + |Logons(domain, user, password, env).0|, Logons(domain, user, password, env).1.None?,
                  Delegates(env));
  }

  /** Lines 47-49: when both logons fail, the error of the second is
      returned after the thread is unlocked, and neither the token, the
      impersonation nor the Negotiate transport is reached. */
  lemma LogonFailureStops(domain: string, user: string, password: string, first: Wire, replay: Option<seq<byte>>,
                          env: Env, sent: nat, updated: nat)
    requires env.interactiveLogon.Some? && env.newCredentialsLogon.Some?
    ensures var run := Impersonation(domain, user, password, first, replay, env, sent, updated);
      && run.result == Err(env.newCredentialsLogon.value)
      && run.sent == sent && run.updated == updated
      && |run.events| == 4 && run.events[3] == ThreadUnlock
      && forall k :: 0 <= k < |run.events| ==> !Negotiating(run.events[k]) && !run.events[k].Impersonate?
  {
  }

  /** Lines 51-54: when impersonation fails, its error is returned, the
      token is still closed and the thread unlocked, nothing is reverted
      and the Negotiate transport is not reached. */
  lemma ImpersonationFailureClosesToken(domain: string, user: string, password: string, first: Wire,
                                        replay: Option<seq<byte>>, env: Env, sent: nat, updated: nat)
    requires env.interactiveLogon.None? || env.newCredentialsLogon.None?
    requires env.impersonation.Some?
    ensures var run := Impersonation(domain, user, password, first, replay, env, sent, updated);
      var n := |run.events|;
      && run.result == Err(env.impersonation.value)
      && run.sent == sent && run.updated == updated
      && n >= 4 && run.events[n - 3..] == [Impersonate, TokenClose, ThreadUnlock]
      && forall k :: 0 <= k < n ==> !Negotiating(run.events[k]) && !run.events[k].Revert?
  {
  }

  /** The log of a round trip, `h` being the index just past the logon
      attempts: the thread lock first and its unlock last; the logons right
      after the lock; with a `token`, the impersonation right after the
      logons and the token closed just before the unlock; once `delegated`,
      the revert just before the token is closed; every call of the
      Negotiate transport strictly between the impersonation and the
      revert; and each of these at most once. */
  predicate Nested(evs: seq<Event>, h: nat, token: bool, delegated: bool)
  {
    var n := |evs|;
    && n > h
    && forall k :: 0 <= k < n ==>
      && (evs[k].ThreadLock? <==> k == 0)
      && (evs[k].Logon? <==> 1 <= k < h)
      && (evs[k].Impersonate? <==> token && k == h)
      && (evs[k].Revert? <==> delegated && k == n - 3)
      && (evs[k].TokenClose? <==> token && k == n - 2)
      && (evs[k].ThreadUnlock? <==> k == n - 1)
      && (Negotiating(evs[k]) ==> delegated && h < k < n - 3)
  }

  predicate AllLogons(a: seq<Event>)
  {
    forall k :: 0 <= k < |a| ==> a[k].Logon?
  }

  lemma NestedWithoutToken(a: seq<Event>)
    requires AllLogons(a)
    ensures Nested([ThreadLock] + a + [ThreadUnlock], 1 + |a|, false, false)
  {
    var evs := [ThreadLock] + a + [ThreadUnlock];
    forall k | 1 <= k < 1 + |a| ensures evs[k] == a[k - 1] {}
  }

  lemma NestedDenied(a: seq<Event>)
    requires AllLogons(a)
    ensures Nested([ThreadLock] + a + [Impersonate, TokenClose, ThreadUnlock], 1 + |a|, true, false)
  {
    var evs := [ThreadLock] + a + [Impersonate, TokenClose, ThreadUnlock];
    forall k | 1 <= k < 1 + |a| ensures evs[k] == a[k - 1] {}
  }

  lemma NestedDelegated(a: seq<Event>, ex: seq<Event>)
    requires AllLogons(a)
    requires forall k :: 0 <= k < |ex| ==> Negotiating(ex[k])
    ensures Nested([ThreadLock] + a + [Impersonate] + ex + [Revert, TokenClose, ThreadUnlock], 1 + |a|, true, true)
  {
    var evs := [ThreadLock] + a + [Impersonate] + ex + [Revert, TokenClose, ThreadUnlock];
    var h := 1 + |a|;
    forall k | 1 <= k < h ensures evs[k] == a[k - 1] {}
    forall k | h < k < h + 1 + |ex| ensures evs[k] == ex[k - h - 1] {}
  }

  /** Lines 32-33, 50-59: the thread, the token and the impersonation are
      released in the reverse order of their acquisition, on every path,
      and the Negotiate transport runs only inside all three. */
  lemma CleanupLastInFirstOut(domain: string, user: string, password: string, first: Wire, replay: Option<seq<byte>>,
                              env: Env, sent: nat, updated: nat)
    ensures var attempts := Logons(domain, user, password, env);
      && attempts.0 != []
      && Nested(Impersonation(domain, user, password, first, replay, env, sent, updated).events,
                1 + |attempts.0|, attempts.1.None?, Delegates(env))
  {
    var attempts := Logons(domain, user, password, env);
    if attempts.1.Some? {
      CleanupWithoutToken(domain, user, password, first, replay, env, sent, updated);
    } else if env.impersonation.Some? {
      CleanupDenied(domain, user, password, first, replay, env, sent, updated);
    } else {
      CleanupDelegated(domain, user, password, first, replay, env, sent, updated);
    }
  }

  lemma CleanupWithoutToken(domain: string, user: string, password: string, first: Wire, replay: Option<seq<byte>>,
                            env: Env, sent: nat, updated: nat)
    requires Logons(domain, user, password, env).1.Some?
    ensures var a := Logons(domain, user, password, env).0;
      Nested(Impersonation(domain, user, password, first, replay, env, sent, updated).events, 1 + |a|, false, false)
  {
    var a := Logons(domain, user, password, env).0;
    assert AllLogons(a);
    assert Impersonation(domain, user, password, first, replay, env, sent, updated).events
        == [ThreadLock] + a + [ThreadUnlock];
    NestedWithoutToken(a);
  }

  lemma CleanupDenied(domain: string, user: string, password: string, first: Wire, replay: Option<seq<byte>>,
                      env: Env, sent: nat, updated: nat)
    requires Logons(domain, user, password, env).1.None? && env.impersonation.Some?
    ensures var a := Logons(domain, user, password, env).0;
      Nested(Impersonation(domain, user, password, first, replay, env, sent, updated).events, 1 + |a|, true, false)
  {
    var a := Logons(domain, user, password, env).0;
    assert AllLogons(a);
    assert Impersonation(domain, user, password, first, replay, env, sent, updated).events
        == [ThreadLock] + a + [Impersonate, TokenClose, ThreadUnlock];
    NestedDenied(a);
  }

  lemma CleanupDelegated(domain: string, user: string, password: string, first: Wire, replay: Option<seq<byte>>,
                         env: Env, sent: nat, updated: nat)
    requires Logons(domain, user, password, env).1.None? && env.impersonation.None?
    ensures var a := Logons(domain, user, password, env).0;
      Nested(Impersonation(domain, user, password, first, replay, env, sent, updated).events, 1 + |a|, true, true)
  {
    var a := Logons(domain, user, password, env).0;
    assert AllLogons(a);
    var ex := Exchange(first, replay, env, sent, updated).events;
    assert Impersonation(domain, user, password, first, replay, env, sent, updated).events
        == [ThreadLock] + a + [Impersonate] + ex + [Revert, TokenClose, ThreadUnlock];
    ExchangeStaysInside(first, replay, env, sent, updated);
    NestedDelegated(a, ex);
  }

  /** Lines 58-59: with an impersonated token the request is handed to the
      Negotiate transport as it came, right after the impersonation, and
      what that transport returns is returned. */
  lemma DelegatesRequestUnchanged(domain: string, user: string, password: string, first: Wire,
                                  replay: Option<seq<byte>>, env: Env, sent: nat, updated: nat)
    requires Delegates(env)
    ensures var run := Impersonation(domain, user, password, first, replay, env, sent, updated);
      var ex := Exchange(first, replay, env, sent, updated);
      var i := 1 + |Logons(domain, user, password, env).0|;
      && run.result == ex.result && run.sent == ex.sent && run.updated == ex.updated
      && |run.events| > i + 1 && run.events[i] == Impersonate && run.events[i + 1] == Sent(first)
  {
  }
}
