/** What the Negotiate round trip promises, stated on `Exchange`,
    `Negotiation` and `Legs`: how often the base transport and the security
    context are called, which response comes back, what each leg sends and
    in which order resources are released. */
module NegotiateFacts {
  import opened Outcomes
  import opened Strings
  import opened Base64
  import opened Http
  import opened Platform
  import opened Negotiate

  // ---------------------------------------------------------------------
  // Counting calls in the log

  predicate IsSend(e: Event) { e.Sent? }

  predicate IsUpdate(e: Event) { e.ContextUpdate? }

  /** How many events of `evs` satisfy `p`. */
  function Count(evs: seq<Event>, p: Event -> bool): nat
  {
    if evs == [] then 0
    else Count(evs[..|evs| - 1], p) + (if p(evs[|evs| - 1]) then 1 else 0)
  }

  lemma {:induction false} CountAppend(a: seq<Event>, b: seq<Event>, p: Event -> bool)
    ensures Count(a + b, p) == Count(a, p) + Count(b, p)
    decreases |b|
  {
    if b != [] {
      var b' := b[..|b| - 1];
      var e := b[|b| - 1];
      assert (a + b)[..|a + b| - 1] == a + b';
      assert (a + b)[|a + b| - 1] == e;
      CountAppend(a, b', p);
    } else {
      assert a + b == a;
    }
  }

  lemma {:induction false} CountNone(evs: seq<Event>, p: Event -> bool)
    requires forall k :: 0 <= k < |evs| ==> !p(evs[k])
    ensures Count(evs, p) == 0
    decreases |evs|
  {
    if evs != [] {
      CountNone(evs[..|evs| - 1], p);
    }
  }

  /** One leg calls the base transport at most once and the context at
      most once, never on leg 0, and goes on only after a send; the log
      records exactly those calls. */
  lemma LegStepTally(i: nat, inToken: Token, out0: Token, base: Wire, env: Env, read: Response -> Token, sent: nat, updated: nat)
    ensures var st := LegStep(i, inToken, out0, base, env, read, sent, updated);
      && Count(st.events, IsSend) == st.sent - sent
      && Count(st.events, IsUpdate) == st.updated - updated
      && sent <= st.sent <= sent + 1
      && updated <= st.updated <= updated + (if i == 0 then 0 else 1)
      && (st.Continue? || i == 0 ==> st.sent == sent + 1)
  {
    var st := LegStep(i, inToken, out0, base, env, read, sent, updated);
    var step := if i == 0 then Advanced(false, out0) else NextUpdate(env, updated);
    var asked := if i == 0 then [] else [ContextUpdate(inToken)];
    assert Count(asked, IsSend) == 0 && Count(asked, IsUpdate) == |asked| by {
      if i != 0 { assert asked[..0] == []; }
    }
    if step.Advanced? {
      var w := WithToken(base, step.token);
      CountAppend(asked, [Sent(w)], IsSend);
      CountAppend(asked, [Sent(w)], IsUpdate);
      assert [Sent(w)][..0] == [];
    }
  }

  /** From leg `i` on, the handshake sends at most `MaxLegs - i` requests
      and updates the context at most once per leg after the first; the log
      holds one `Sent` per send and one `ContextUpdate` per update. */
  lemma {:induction false} LegsTally(i: nat, inToken: Token, out0: Token, base: Wire, env: Env, read: Response -> Token, sent: nat,
                                     updated: nat, last: Response, done: seq<Event>)
    requires i <= MaxLegs
    ensures var run := Legs(i, inToken, out0, base, env, read, sent, updated, last, done);
      && sent + (if i == 0 then 1 else 0) <= run.sent <= sent + (MaxLegs - i)
      && updated <= run.updated && run.updated + (if i == 0 then 1 else 0) <= updated + (MaxLegs - i)
      && Count(run.events, IsSend) == Count(done, IsSend) + (run.sent - sent)
      && Count(run.events, IsUpdate) == Count(done, IsUpdate) + (run.updated - updated)
    decreases MaxLegs - i, 1
  {
    if i < MaxLegs {
      var st := LegStep(i, inToken, out0, base, env, read, sent, updated);
      LegStepTally(i, inToken, out0, base, env, read, sent, updated);
      AfterTally(i, st, out0, base, env, read, sent, updated, done);
    }
  }

  lemma {:induction false} AfterTally(i: nat, st: Step, out0: Token, base: Wire, env: Env, read: Response -> Token, sent: nat,
                                      updated: nat, done: seq<Event>)
    requires i < MaxLegs
    requires Count(st.events, IsSend) == st.sent - sent && Count(st.events, IsUpdate) == st.updated - updated
    requires sent <= st.sent <= sent + 1 && updated <= st.updated <= updated + (if i == 0 then 0 else 1)
    requires st.Continue? || i == 0 ==> st.sent == sent + 1
    ensures var run := After(i, st, out0, base, env, read, done);
      && st.sent <= run.sent <= sent + (MaxLegs - i)
      && updated <= run.updated && run.updated + (if i == 0 then 1 else 0) <= updated + (MaxLegs - i)
      && Count(run.events, IsSend) == Count(done, IsSend) + (run.sent - sent)
      && Count(run.events, IsUpdate) == Count(done, IsUpdate) + (run.updated - updated)
    decreases MaxLegs - i, 0
  {
    CountAppend(done, st.events, IsSend);
    CountAppend(done, st.events, IsUpdate);
    if st.Continue? {
      LegsTally(i + 1, st.nextIn, out0, base, env, read, st.sent, st.updated, st.last, done + st.events);
    }
  }

  /** A round trip calls the base transport at most `1 + MaxLegs` (six)
      times and the security context's `Update` at most `MaxLegs - 1`
      (four) times, and its log records exactly those calls. */
  lemma ExchangeTally(first: Wire, replay: Option<seq<byte>>, env: Env, sent: nat, updated: nat)
    ensures var run := Exchange(first, replay, env, sent, updated);
      && sent + 1 <= run.sent <= sent + 1 + MaxLegs
      && updated <= run.updated <= updated + MaxLegs - 1
      && Count(run.events, IsSend) == run.sent - sent
      && Count(run.events, IsUpdate) == run.updated - updated
  {
    var o := NextSend(env, sent);
    CountAppend([], [Sent(first)], IsSend);
    CountAppend([], [Sent(first)], IsUpdate);
    if o.Delivered? && o.resp.status == StatusUnauthorized {
      var ch := Challenged(Wire(first.header, first.host, replay), o.resp, env, sent + 1, updated);
      assert Exchange(first, replay, env, sent, updated) == Prepend([Sent(first)], ch);
      ChallengedTally(Wire(first.header, first.host, replay), o.resp, env, sent + 1, updated);
      CountAppend([Sent(first)], ch.events, IsSend);
      CountAppend([Sent(first)], ch.events, IsUpdate);
    }
  }

  lemma ChallengedTally(base: Wire, resp: Response, env: Env, sent: nat, updated: nat)
    ensures var run := Challenged(base, resp, env, sent, updated);
      && sent <= run.sent <= sent + MaxLegs
      && updated <= run.updated <= updated + MaxLegs - 1
      && Count(run.events, IsSend) == run.sent - sent
      && Count(run.events, IsUpdate) == run.updated - updated
  {
    var values := Values(resp.header, WwwAuthenticate);
    if FirstChallenge(values, Scheme).Some? {
      NegotiationTally(base, InitialToken(values), Drained(resp), env, sent, updated);
    }
  }

  lemma NegotiationTally(base: Wire, inToken: Token, last: Response, env: Env, sent: nat, updated: nat)
    ensures var run := Negotiation(base, inToken, last, env, sent, updated);
      && sent <= run.sent <= sent + MaxLegs
      && updated <= run.updated <= updated + MaxLegs - 1
      && Count(run.events, IsSend) == run.sent - sent
      && Count(run.events, IsUpdate) == run.updated - updated
  {
    var run := Negotiation(base, inToken, last, env, sent, updated);
    if env.credentials.Some? || env.context.Err? {
      assert run.sent == sent && run.updated == updated;
      assert forall k :: 0 <= k < |run.events| ==>
        (run.events[k].CredentialsAcquire? || run.events[k].ContextCreate? || run.events[k].CredentialsRelease?);
      CountNone(run.events, IsSend);
      CountNone(run.events, IsUpdate);
    } else {
      NegotiationLegsTally(base, inToken, last, env, sent, updated);
    }
  }

  lemma NegotiationLegsTally(base: Wire, inToken: Token, last: Response, env: Env, sent: nat, updated: nat)
    requires env.credentials.None? && env.context.Ok?
    ensures var run := Negotiation(base, inToken, last, env, sent, updated);
      && sent <= run.sent <= sent + MaxLegs
      && updated <= run.updated <= updated + MaxLegs - 1
      && Count(run.events, IsSend) == run.sent - sent
      && Count(run.events, IsUpdate) == run.updated - updated
  {
    var created := [CredentialsAcquire, ContextCreate(ServicePrincipalName(base.host, env.hostname))];
    var releases := [ContextRelease, CredentialsRelease];
    var legs := Legs(0, inToken, env.context.value, base, env, LegServerToken, sent, updated, last, created);
    var run := Negotiation(base, inToken, last, env, sent, updated);
    NegotiationLegs(base, inToken, last, env, sent, updated);
    assert run.events == legs.events + releases && run.sent == legs.sent && run.updated == legs.updated;
    assert Count(created, IsSend) == 0 && Count(created, IsUpdate) == 0 by {
      CountNone(created, IsSend);
      CountNone(created, IsUpdate);
    }
    assert Count(releases, IsSend) == 0 && Count(releases, IsUpdate) == 0 by {
      CountNone(releases, IsSend);
      CountNone(releases, IsUpdate);
    }
    LegsTally(0, inToken, env.context.value, base, env, LegServerToken, sent, updated, last, created);
    CountAppend(legs.events, releases, IsSend);
    CountAppend(legs.events, releases, IsUpdate);
  }

  // ---------------------------------------------------------------------
  // Which response comes back

  /** `r` is the response to the base-transport call made after `sent - 1`
      earlier ones, as delivered or drained. */
  predicate Answers(env: Env, sent: nat, r: Response)
  {
    && sent > 0 && NextSend(env, sent - 1).Delivered?
    && (r == NextSend(env, sent - 1).resp || r == Drained(NextSend(env, sent - 1).resp))
  }

  /** A successful round trip returns the response to the LAST call of the
      base transport. */
  predicate AnswersLast(env: Env, run: Run)
  {
    run.result.Ok? ==> Answers(env, run.sent, run.result.value)
  }

  /** Every base-transport call numbered `from` up to (not including) `to`
      was answered 401. With `to` the number of the last call, this says
      that the first answer other than a 401 ends the exchange at once. */
  predicate UnauthorizedBetween(env: Env, from: nat, to: int)
  {
    forall k :: from <= k < to ==> Unauthorized(NextSend(env, k))
  }

  /** An error a run returns is the error of its last send or of its last
      `Update`, among the calls made after `sent0` sends and `updated0`
      updates. */
  predicate FailsWithLast(env: Env, sent0: nat, updated0: nat, run: Run)
  {
    run.result.Err? ==>
      || (run.sent > sent0 && NextSend(env, run.sent - 1) == TransportError(run.result.error))
      || (run.updated > updated0 && NextUpdate(env, run.updated - 1) == UpdateFailed(run.result.error))
  }

  lemma LegStepAnswers(i: nat, inToken: Token, out0: Token, base: Wire, env: Env, read: Response -> Token, sent: nat, updated: nat)
    ensures var st := LegStep(i, inToken, out0, base, env, read, sent, updated);
      && sent <= st.sent <= sent + 1 && updated <= st.updated
      && (st.Stop? && st.result.Ok? ==> Answers(env, st.sent, st.result.value))
      && (st.Stop? ==> FailsWithLast(env, sent, updated, Run(st.result, st.events, st.sent, st.updated)))
      && (st.Continue? ==> Answers(env, st.sent, st.last) && st.sent == sent + 1 && Unauthorized(NextSend(env, sent)))
  {
  }

  /** Lines 96-143 from leg `i` on: a response returned answers the last
      send, every earlier send of the legs was answered 401, and an error
      returned is that of the last send or `Update`. */
  lemma {:induction false} LegsAnswer(i: nat, inToken: Token, out0: Token, base: Wire, env: Env, read: Response -> Token, sent: nat,
                                      updated: nat, last: Response, done: seq<Event>)
    requires i <= MaxLegs
    requires Answers(env, sent, last)
    ensures var run := Legs(i, inToken, out0, base, env, read, sent, updated, last, done);
      && AnswersLast(env, run) && sent <= run.sent && updated <= run.updated
      && UnauthorizedBetween(env, sent, run.sent - 1) && FailsWithLast(env, sent, updated, run)
    decreases MaxLegs - i, 1
  {
    if i < MaxLegs {
      var st := LegStep(i, inToken, out0, base, env, read, sent, updated);
      LegStepAnswers(i, inToken, out0, base, env, read, sent, updated);
      AfterAnswers(i, st, out0, base, env, read, sent, updated, done);
    }
  }

  lemma {:induction false} AfterAnswers(i: nat, st: Step, out0: Token, base: Wire, env: Env, read: Response -> Token,
                                        sent: nat, updated: nat, done: seq<Event>)
    requires i < MaxLegs
    requires sent <= st.sent <= sent + 1 && updated <= st.updated
    requires st.Stop? && st.result.Ok? ==> Answers(env, st.sent, st.result.value)
    requires st.Stop? ==> FailsWithLast(env, sent, updated, Run(st.result, st.events, st.sent, st.updated))
    requires st.Continue? ==> Answers(env, st.sent, st.last) && st.sent == sent + 1 && Unauthorized(NextSend(env, sent))
    ensures var run := After(i, st, out0, base, env, read, done);
      && AnswersLast(env, run) && sent <= run.sent && updated <= run.updated
      && UnauthorizedBetween(env, sent, run.sent - 1) && FailsWithLast(env, sent, updated, run)
    decreases MaxLegs - i, 0
  {
    if st.Continue? {
      LegsAnswer(i + 1, st.nextIn, out0, base, env, read, st.sent, st.updated, st.last, done + st.events);
      var run := Legs(i + 1, st.nextIn, out0, base, env, read, st.sent, st.updated, st.last, done + st.events);
      assert UnauthorizedBetween(env, sent, run.sent - 1) by {
        forall k | sent <= k < run.sent - 1
          ensures Unauthorized(NextSend(env, k))
        {
          if k > sent {
            assert st.sent <= k < run.sent - 1;
          }
        }
      }
    }
  }

  /** Lines 43-49, 67-69, 101-104, 115-121, 139-145: whatever path a round
      trip takes, a response it returns is the one the base transport gave
      last and every earlier call was answered 401; an error it returns is
      that of the last send or `Update`, or, after a single 401, that of
      acquiring the credentials or creating the context. */
  lemma {:induction false} ExchangeAnswersLast(first: Wire, replay: Option<seq<byte>>, env: Env, sent: nat, updated: nat)
    ensures var run := Exchange(first, replay, env, sent, updated);
      && AnswersLast(env, run) && UnauthorizedBetween(env, sent, run.sent - 1)
      && (run.result.Err? ==> FailsWithLast(env, sent, updated, run) || SetupFailed(env, sent, run))
  {
    var o := NextSend(env, sent);
    if o.Delivered? && o.resp.status == StatusUnauthorized {
      ExchangeChallengedAnswers(first, replay, env, sent, updated);
    }
  }

  /** The same when the first send came back 401. */
  lemma ExchangeChallengedAnswers(first: Wire, replay: Option<seq<byte>>, env: Env, sent: nat, updated: nat)
    requires Unauthorized(NextSend(env, sent))
    ensures var run := Exchange(first, replay, env, sent, updated);
      && AnswersLast(env, run) && UnauthorizedBetween(env, sent, run.sent - 1)
      && (run.result.Err? ==> FailsWithLast(env, sent, updated, run) || SetupFailed(env, sent, run))
  {
    var run := Exchange(first, replay, env, sent, updated);
    var o := NextSend(env, sent);
    var ch := Challenged(Wire(first.header, first.host, replay), o.resp, env, sent + 1, updated);
    assert run.result == ch.result && run.sent == ch.sent && run.updated == ch.updated;
    ChallengedAnswers(Wire(first.header, first.host, replay), o.resp, env, sent + 1, updated);
    SameOutcome(env, sent, updated, ch, run);
  }

  /** After a single 401, acquiring the credentials or creating the context
      failed with the error `run` returns. */
  predicate SetupFailed(env: Env, sent: nat, run: Run)
  {
    && run.result.Err? && run.sent == sent + 1 && Unauthorized(NextSend(env, sent))
    && (env.credentials == Some(run.result.error) || (env.credentials.None? && env.context == Err(run.result.error)))
  }

  /** Lines 51-145 once the first send, numbered `sent - 1`, came back 401. */
  lemma {:induction false} ChallengedAnswers(base: Wire, resp: Response, env: Env, sent: nat, updated: nat)
    requires sent > 0 && Unauthorized(NextSend(env, sent - 1)) && resp == NextSend(env, sent - 1).resp
    ensures var ch := Challenged(base, resp, env, sent, updated);
      && AnswersLast(env, ch) && UnauthorizedBetween(env, sent - 1, ch.sent - 1)
      && (ch.result.Err? ==> FailsWithLast(env, sent - 1, updated, ch) || SetupFailed(env, sent - 1, ch))
  {
    var values := Values(resp.header, WwwAuthenticate);
    var ch := Challenged(base, resp, env, sent, updated);
    if FirstChallenge(values, Scheme).Some? {
      assert ch == Negotiation(base, InitialToken(values), Drained(resp), env, sent, updated);
      NegotiationAnswers(base, InitialToken(values), Drained(resp), env, sent, updated);
      if env.credentials.Some? || env.context.Err? {
        assert ch.sent == sent && SetupFailed(env, sent - 1, ch);
      }
    }
  }

  /** Lines 75-145: the same once a Negotiate challenge has arrived; with
      credentials and a context, an error is that of the last send or
      `Update`. */
  lemma NegotiationAnswers(base: Wire, inToken: Token, last: Response, env: Env, sent: nat, updated: nat)
    requires Answers(env, sent, last)
    ensures var run := Negotiation(base, inToken, last, env, sent, updated);
      && AnswersLast(env, run) && sent <= run.sent && UnauthorizedBetween(env, sent, run.sent - 1)
      && (env.credentials.None? && env.context.Ok? ==> FailsWithLast(env, sent, updated, run))
  {
    var run := Negotiation(base, inToken, last, env, sent, updated);
    if env.credentials.None? && env.context.Ok? {
      var created := [CredentialsAcquire, ContextCreate(ServicePrincipalName(base.host, env.hostname))];
      var legs := Legs(0, inToken, env.context.value, base, env, LegServerToken, sent, updated, last, created);
      assert run == Run(legs.result, legs.events + [ContextRelease, CredentialsRelease], legs.sent, legs.updated);
      LegsAnswer(0, inToken, env.context.value, base, env, LegServerToken, sent, updated, last, created);
      SameOutcome(env, sent, updated, legs, run);
    } else {
      assert run.result.Err? && run.sent == sent;
    }
  }

  /** The facts above depend only on a run's result and counts. */
  lemma SameOutcome(env: Env, sent: nat, updated: nat, a: Run, b: Run)
    requires a.result == b.result && a.sent == b.sent && a.updated == b.updated
    ensures AnswersLast(env, a) ==> AnswersLast(env, b)
    ensures UnauthorizedBetween(env, sent, a.sent - 1) ==> UnauthorizedBetween(env, sent, b.sent - 1)
    ensures FailsWithLast(env, sent, updated, a) ==> FailsWithLast(env, sent, updated, b)
    ensures SetupFailed(env, sent, a) ==> SetupFailed(env, sent, b)
  {
  }

  // ---------------------------------------------------------------------
  // What the legs send, and the order of acquisitions and releases

  /** A request one leg sends: the caller's host, body and headers, except
      that `Authorization` holds the single value `Negotiate <token>`. */
  predicate IsLegCopy(base: Wire, w: Wire)
  {
    && w.host == base.host && w.body == base.body
    && w.header.Keys == base.header.Keys + {Authorization}
    && (forall k :: k in base.header && k != Authorization ==> w.header[k] == base.header[k])
    && |w.header[Authorization]| == 1 && HasPrefix(w.header[Authorization][0], AuthPrefix)
  }

  /** Only handshake traffic: context updates and leg copies of `base`. */
  predicate Traffic(base: Wire, evs: seq<Event>)
  {
    forall k :: 0 <= k < |evs| ==> evs[k].ContextUpdate? || (evs[k].Sent? && IsLegCopy(base, evs[k].request))
  }

  lemma TrafficAppend(base: Wire, a: seq<Event>, b: seq<Event>)
    requires Traffic(base, a) && Traffic(base, b)
    ensures Traffic(base, a + b)
  {
    forall k | 0 <= k < |a + b|
      ensures (a + b)[k].ContextUpdate? || ((a + b)[k].Sent? && IsLegCopy(base, (a + b)[k].request))
    {
      if k >= |a| {
        assert (a + b)[k] == b[k - |a|];
      }
    }
  }

  /** Lines 106-113, 148-156: the copy a leg sends keeps everything of the
      caller's request but the `Authorization` header. */
  lemma WithTokenIsLegCopy(base: Wire, tok: Token)
    ensures IsLegCopy(base, WithToken(base, tok))
  {
  }

  lemma LegStepTraffic(i: nat, inToken: Token, out0: Token, base: Wire, env: Env, read: Response -> Token, sent: nat, updated: nat)
    ensures Traffic(base, LegStep(i, inToken, out0, base, env, read, sent, updated).events)
  {
    var step := if i == 0 then Advanced(false, out0) else NextUpdate(env, updated);
    if step.Advanced? {
      WithTokenIsLegCopy(base, step.token);
    }
  }

  lemma {:induction false} LegsTraffic(i: nat, inToken: Token, out0: Token, base: Wire, env: Env, read: Response -> Token, sent: nat,
                                       updated: nat, last: Response, done: seq<Event>)
    requires i <= MaxLegs
    requires Traffic(base, done)
    ensures Traffic(base, Legs(i, inToken, out0, base, env, read, sent, updated, last, done).events)
    decreases MaxLegs - i, 1
  {
    if i < MaxLegs {
      var st := LegStep(i, inToken, out0, base, env, read, sent, updated);
      LegStepTraffic(i, inToken, out0, base, env, read, sent, updated);
      AfterTraffic(i, st, out0, base, env, read, done);
    }
  }

  lemma {:induction false} AfterTraffic(i: nat, st: Step, out0: Token, base: Wire, env: Env, read: Response -> Token, done: seq<Event>)
    requires i < MaxLegs
    requires Traffic(base, done) && Traffic(base, st.events)
    ensures Traffic(base, After(i, st, out0, base, env, read, done).events)
    decreases MaxLegs - i, 0
  {
    TrafficAppend(base, done, st.events);
    if st.Continue? {
      LegsTraffic(i + 1, st.nextIn, out0, base, env, read, st.sent, st.updated, st.last, done + st.events);
    }
  }

  /** Lines 82-91, 145: credentials are acquired first and the context
      created second; whatever happens later, the context is released
      before the credentials, and between creation and release the log
      holds only leg copies of the request and context updates. A failed
      acquisition releases nothing; a failed context creation releases the
      credentials alone. */
  lemma NegotiationOrder(base: Wire, inToken: Token, last: Response, env: Env, sent: nat, updated: nat)
    ensures var run := Negotiation(base, inToken, last, env, sent, updated);
      var spn := ServicePrincipalName(base.host, env.hostname);
      && (env.credentials.Some? ==> run.result == Err(env.credentials.value) && run.events == [CredentialsAcquire])
      && (env.credentials.None? && env.context.Err? ==>
            run.result == Err(env.context.error) && run.events == [CredentialsAcquire, ContextCreate(spn), CredentialsRelease])
      && (env.credentials.None? && env.context.Ok? ==>
            && |run.events| >= 4
            && run.events[..2] == [CredentialsAcquire, ContextCreate(spn)]
            && run.events[|run.events| - 2..] == [ContextRelease, CredentialsRelease]
            && Traffic(base, run.events[2..|run.events| - 2]))
  {
    if env.credentials.None? && env.context.Ok? {
      var spn := ServicePrincipalName(base.host, env.hostname);
      var created := [CredentialsAcquire, ContextCreate(spn)];
      var out0 := env.context.value;
      var middle := Legs(0, inToken, out0, base, env, LegServerToken, sent, updated, last, []);
      assert created + [] == created;
      LegsPrefix(0, inToken, out0, base, env, LegServerToken, sent, updated, last, created, []);
      var evs := created + middle.events + [ContextRelease, CredentialsRelease];
      assert Negotiation(base, inToken, last, env, sent, updated).events == evs;
      LegsTraffic(0, inToken, out0, base, env, LegServerToken, sent, updated, last, []);
      LegsTally(0, inToken, out0, base, env, LegServerToken, sent, updated, last, []);
      assert |middle.events| > 0;
      assert evs[2..|evs| - 2] == middle.events;
    }
  }

  // ---------------------------------------------------------------------
  // Which token each leg sends

  /** The calls of leg `i` open the record of the legs from `i` on. */
  lemma LegsFromStarts(i: nat, inToken: Token, out0: Token, base: Wire, env: Env, read: Response -> Token, sent: nat, updated: nat,
                       done: seq<Event>)
    requires i < MaxLegs
    ensures var st := LegStep(i, inToken, out0, base, env, read, sent, updated);
      var run := LegsFrom(i, inToken, out0, base, env, read, sent, updated, done);
      |done| + |st.events| <= |run.events| && run.events[..|done| + |st.events|] == done + st.events
  {
    var st := LegStep(i, inToken, out0, base, env, read, sent, updated);
    if st.Continue? {
      assert done + st.events + [] == done + st.events;
      LegsPrefix(i + 1, st.nextIn, out0, base, env, read, st.sent, st.updated, st.last, done + st.events, []);
    }
  }

  /** The first calls of leg `i`. */
  lemma LegStepOpens(i: nat, inToken: Token, out0: Token, base: Wire, env: Env, read: Response -> Token,
                     sent: nat, updated: nat)
    ensures var st := LegStep(i, inToken, out0, base, env, read, sent, updated);
      && |st.events| >= 1
      && (i == 0 ==> st.events[0] == Sent(WithToken(base, out0)))
      && (i > 0 ==> st.events[0] == ContextUpdate(inToken))
      && (i > 0 && NextUpdate(env, updated).Advanced? ==>
            |st.events| == 2 && st.events[1] == Sent(WithToken(base, NextUpdate(env, updated).token)))
  {
  }

  /** Lines 95-105, 113: leg 0 sends the context's initial token without
      calling `Update`; a later leg first hands `Update` the token it was
      given, then sends what `Update` returned. */
  lemma LegTokens(i: nat, inToken: Token, out0: Token, base: Wire, env: Env, read: Response -> Token,
                  sent: nat, updated: nat, last: Response, done: seq<Event>)
    requires i < MaxLegs
    ensures var run := Legs(i, inToken, out0, base, env, read, sent, updated, last, done);
      && |done| < |run.events| && run.events[..|done|] == done
      && (i == 0 ==> run.events[|done|] == Sent(WithToken(base, out0)))
      && (i > 0 ==> run.events[|done|] == ContextUpdate(inToken))
      && (i > 0 && NextUpdate(env, updated).Advanced? ==>
            |done| + 1 < |run.events| &&
            run.events[|done| + 1] == Sent(WithToken(base, NextUpdate(env, updated).token)))
  {
    var st := LegStep(i, inToken, out0, base, env, read, sent, updated);
    LegsFromStarts(i, inToken, out0, base, env, read, sent, updated, done);
    LegStepOpens(i, inToken, out0, base, env, read, sent, updated);
    var evs := LegsFrom(i, inToken, out0, base, env, read, sent, updated, done).events;
    assert evs[..|done| + |st.events|] == done + st.events;
    assert forall k :: 0 <= k < |st.events| ==> evs[|done| + k] == st.events[k] by {
      forall k | 0 <= k < |st.events| ensures evs[|done| + k] == st.events[k] {
        assert evs[|done| + k] == evs[..|done| + |st.events|][|done| + k];
      }
    }
    assert evs[..|done|] == (done + st.events)[..|done|];
  }

  /** Lines 122-134, 143: a leg that goes on hands the next leg the token
      `read` takes from its 401, and the next leg gives it to `Update`
      first thing. */
  lemma ServerTokenFeedsNextLeg(i: nat, inToken: Token, out0: Token, base: Wire, env: Env, read: Response -> Token,
                                sent: nat, updated: nat, done: seq<Event>)
    requires i + 1 < MaxLegs
    ensures var st := LegStep(i, inToken, out0, base, env, read, sent, updated);
      var run := LegsFrom(i, inToken, out0, base, env, read, sent, updated, done);
      st.Continue? ==>
        && NextSend(env, sent).Delivered? && st.nextIn == read(NextSend(env, sent).resp)
        && |done| + |st.events| < |run.events|
        && run.events[|done| + |st.events|] == ContextUpdate(st.nextIn)
  {
    var st := LegStep(i, inToken, out0, base, env, read, sent, updated);
    if st.Continue? {
      var done' := done + st.events;
      LegTokens(i + 1, st.nextIn, out0, base, env, read, st.sent, st.updated, st.last, done');
    }
  }

  /** Lines 96-105, 143: the token of the first 401's challenge is
      overwritten before any `Update`, so the round trip does not depend
      on it. */
  lemma ChallengeTokenUnused(base: Wire, t1: Token, t2: Token, last: Response, env: Env, sent: nat, updated: nat)
    ensures Negotiation(base, t1, last, env, sent, updated) == Negotiation(base, t2, last, env, sent, updated)
  {
    if env.context.Ok? {
      var out0 := env.context.value;
      assert LegStep(0, t1, out0, base, env, LegServerToken, sent, updated) == LegStep(0, t2, out0, base, env, LegServerToken, sent, updated);
    }
  }

  // ---------------------------------------------------------------------
  // How the loop ends

  /** Lines 96-105, 139-141: leg 0 never stops on a 401, since its done
      flag is false. */
  lemma FirstLegGoesOnAfter401(inToken: Token, out0: Token, base: Wire, env: Env, read: Response -> Token, sent: nat, updated: nat)
    requires NextSend(env, sent).Delivered? && NextSend(env, sent).resp.status == StatusUnauthorized
    ensures LegStep(0, inToken, out0, base, env, read, sent, updated).Continue?
  {
  }

  /** Lines 139-141: a later leg whose context reports done and whose 401
      carries no token ends the round trip with that 401, drained. */
  lemma DoneWithoutTokenStops(i: nat, inToken: Token, out0: Token, base: Wire, env: Env, read: Response -> Token, sent: nat, updated: nat,
                              last: Response, done: seq<Event>)
    requires 0 < i < MaxLegs
    requires NextUpdate(env, updated).Advanced? && NextUpdate(env, updated).done
    requires NextSend(env, sent).Delivered? && NextSend(env, sent).resp.status == StatusUnauthorized
    requires read(NextSend(env, sent).resp) == []
    ensures var run := Legs(i, inToken, out0, base, env, read, sent, updated, last, done);
      run.result == Ok(Drained(NextSend(env, sent).resp)) && run.sent == sent + 1 && run.updated == updated + 1
  {
    var st := LegStep(i, inToken, out0, base, env, read, sent, updated);
    assert st.Stop?;
  }

  predicate Unauthorized(o: SendOutcome)
  {
    o.Delivered? && o.resp.status == StatusUnauthorized
  }

  /** An `Update` that succeeds without the context reporting done. */
  predicate Undone(u: UpdateOutcome)
  {
    u.Advanced? && !u.done
  }

  lemma LegStepGoesOn(i: nat, inToken: Token, out0: Token, base: Wire, env: Env, read: Response -> Token, sent: nat, updated: nat)
    requires Unauthorized(NextSend(env, sent))
    requires i > 0 ==> Undone(NextUpdate(env, updated))
    ensures var st := LegStep(i, inToken, out0, base, env, read, sent, updated);
      && st.Continue? && st.sent == sent + 1 && st.updated == updated + (if i == 0 then 0 else 1)
      && NextSend(env, sent).Delivered? && st.last == Drained(NextSend(env, sent).resp)
  {
  }

  /** Lines 95-145 from leg `i` on, when every remaining answer is a 401
      and every `Update` succeeds without the context reporting done: all
      remaining legs are run and the last 401, drained, is returned. */
  lemma {:induction false} LegsExhausted(i: nat, inToken: Token, out0: Token, base: Wire, env: Env, read: Response -> Token, sent: nat,
                                         updated: nat, last: Response, done: seq<Event>)
    requires i <= MaxLegs
    requires forall k :: sent <= k < sent + (MaxLegs - i) ==> Unauthorized(NextSend(env, k))
    requires forall k :: updated <= k < updated + (MaxLegs - i) - (if i == 0 then 1 else 0) ==>
               Undone(NextUpdate(env, k))
    ensures var run := Legs(i, inToken, out0, base, env, read, sent, updated, last, done);
      && run.sent == sent + (MaxLegs - i)
      && run.updated == updated + (MaxLegs - i) - (if i == 0 then 1 else 0)
      && (i == MaxLegs ==> run.result == Ok(last))
      && (i < MaxLegs ==>
            NextSend(env, run.sent - 1).Delivered? && run.result == Ok(Drained(NextSend(env, run.sent - 1).resp)))
    decreases MaxLegs - i, 1
  {
    var run := Legs(i, inToken, out0, base, env, read, sent, updated, last, done);
    if i < MaxLegs {
      var st := LegStep(i, inToken, out0, base, env, read, sent, updated);
      assert run == After(i, st, out0, base, env, read, done);
      LegStepGoesOn(i, inToken, out0, base, env, read, sent, updated);
      AfterExhausted(i, st, out0, base, env, read, sent, updated, done);
      var o := NextSend(env, run.sent - 1);
      assert o.Delivered? && run.result == Ok(Drained(o.resp));
    } else {
      assert run == Run(Ok(last), done, sent, updated);
    }
  }

  lemma {:induction false} AfterExhausted(i: nat, st: Step, out0: Token, base: Wire, env: Env, read: Response -> Token, sent: nat,
                                          updated: nat, done: seq<Event>)
    requires i < MaxLegs
    requires st.Continue? && st.sent == sent + 1 && st.updated == updated + (if i == 0 then 0 else 1)
    requires NextSend(env, sent).Delivered? && st.last == Drained(NextSend(env, sent).resp)
    requires forall k :: sent <= k < sent + (MaxLegs - i) ==> Unauthorized(NextSend(env, k))
    requires forall k :: updated <= k < updated + (MaxLegs - i) - (if i == 0 then 1 else 0) ==>
               Undone(NextUpdate(env, k))
    ensures var run := After(i, st, out0, base, env, read, done);
      && run.sent == sent + (MaxLegs - i)
      && run.updated == updated + (MaxLegs - i) - (if i == 0 then 1 else 0)
      && NextSend(env, run.sent - 1).Delivered? && run.result == Ok(Drained(NextSend(env, run.sent - 1).resp))
    decreases MaxLegs - i, 0
  {
    LegsExhausted(i + 1, st.nextIn, out0, base, env, read, st.sent, st.updated, st.last, done + st.events);
  }

  /** Lines 43, 95-145: when the first answer is a 401 offering Negotiate,
      credentials and a context are available, the next five answers are
      401s and four `Update`s succeed without the context reporting done,
      the base transport is called six times, `Update` four times, and the
      sixth answer is returned, drained. */
  lemma ExchangeExhausted(first: Wire, replay: Option<seq<byte>>, env: Env, sent: nat, updated: nat)
    requires NextSend(env, sent).Delivered? && NextSend(env, sent).resp.status == StatusUnauthorized
    requires FirstChallenge(Values(NextSend(env, sent).resp.header, WwwAuthenticate), Scheme).Some?
    requires env.credentials.None? && env.context.Ok?
    requires forall k :: sent < k <= sent + MaxLegs ==> Unauthorized(NextSend(env, k))
    requires forall k :: updated <= k < updated + MaxLegs - 1 ==> Undone(NextUpdate(env, k))
    ensures var run := Exchange(first, replay, env, sent, updated);
      && run.sent == sent + 1 + MaxLegs && run.updated == updated + MaxLegs - 1
      && NextSend(env, sent + MaxLegs).Delivered?
      && run.result == Ok(Drained(NextSend(env, sent + MaxLegs).resp))
  {
    var o := NextSend(env, sent);
    var values := Values(o.resp.header, WwwAuthenticate);
    var base := Wire(first.header, first.host, replay);
    LegsExhausted(0, InitialToken(values), env.context.value, base, env, LegServerToken, sent + 1, updated, Drained(o.resp),
                  [CredentialsAcquire, ContextCreate(ServicePrincipalName(base.host, env.hostname))]);
  }

  // ---------------------------------------------------------------------
  // The scheme prefix of a leg's challenge (see Findings)

  lemma SchemeIsLower()
    ensures Lower(SchemeAndSpace) == SchemeAndSpace
  {
    assert SchemeAndSpace == ['n', 'e', 'g', 'o', 't', 'i', 'a', 't', 'e', ' '];
  }

  lemma CanonicalSchemeLowers()
    ensures Lower(AuthPrefix) == SchemeAndSpace
  {
    assert AuthPrefix == ['N', 'e', 'g', 'o', 't', 'i', 'a', 't', 'e', ' '];
    assert SchemeAndSpace == ['n', 'e', 'g', 'o', 't', 'i', 'a', 't', 'e', ' '];
  }

  /** A value that a leg's scan accepts: `scheme` is "negotiate " in any
      mix of case, followed by a non-empty token in base64. */
  lemma SchemeThenToken(scheme: string, t: Token)
    requires Lower(scheme) == SchemeAndSpace && t != []
    ensures var v := scheme + Encode(t);
      TrimSpace(v) == v && Offers(v, SchemeAndSpace) && v[|SchemeAndSpace|..] == Encode(t)
  {
    var e := Encode(t);
    var v := scheme + e;
    EncodeHasNoSpace(t);
    assert |e| > 0;
    assert Lower(scheme)[0] == LowerChar(scheme[0]);
    assert v[0] == scheme[0] && !IsSpace(v[0]);
    assert v[|v| - 1] == e[|e| - 1] && !IsSpace(v[|v| - 1]);
    assert TrimLeft(v) == v;
    assert TrimRight(v) == v;
    LowerAppend(scheme, e);
    assert Lower(v)[..|SchemeAndSpace|] == SchemeAndSpace;
    assert v[|SchemeAndSpace|..] == e;
  }

  /** Lines 122-134 with the scheme stripped ignoring case: whatever the
      case of "negotiate ", the leg recovers the token the server sent. */
  lemma ServerTokenRecovers(values: seq<string>, scheme: string, t: Token)
    requires Lower(scheme) == SchemeAndSpace && t != []
    requires |values| > 0 && values[0] == scheme + Encode(t)
    ensures ServerToken(values) == t
  {
    var v := values[0];
    SchemeThenToken(scheme, t);
    assert FirstChallenge(values, SchemeAndSpace) == Some(v);
    assert LegTokenText(v) == TrimSpace(Encode(t));
    EncodeHasNoSpace(t);
    TrimSpaceNoSpace(Encode(t));
    DecodeEncode(t);
  }

  /** Lines 122-134 as written agree with the corrected reading when the
      server spells the scheme exactly `Negotiate `. */
  lemma ServerTokenAsWrittenCanonical(values: seq<string>, t: Token)
    requires t != [] && |values| > 0 && values[0] == AuthPrefix + Encode(t)
    ensures ServerTokenAsWritten(values) == t
  {
    var v := values[0];
    CanonicalSchemeLowers();
    SchemeThenToken(AuthPrefix, t);
    assert FirstChallenge(values, SchemeAndSpace) == Some(v);
    assert TrimPrefix(v, AuthPrefix) == Encode(t);
    EncodeHasNoSpace(t);
    TrimSpaceNoSpace(Encode(t));
    DecodeEncode(t);
  }

  /** Whatever token follows it, the lower-case scheme "negotiate " decodes
      first as the quantum "nego", whose first byte is 157. */
  lemma DecodeLowercaseScheme(e: string)
    ensures |Decode(SchemeAndSpace + e)| > 0 && Decode(SchemeAndSpace + e)[0] == 157
  {
    var v := SchemeAndSpace + e;
    assert v[..4] == [CharOf(39), CharOf(30), CharOf(32), CharOf(40)];
    DecodeQuantum(v, 39, 30, 32, 40);
  }

  /** Lines 126-128 as written: a server that spells the scheme in lower
      case passes the case-insensitive test, but the case-sensitive
      `TrimPrefix` leaves the scheme in place, so the decoder reads the
      word "negotiate" and the leg answers with bytes that begin with 157
      whatever token the server sent; the corrected reading recovers it. */
  lemma LowercaseSchemeGarbles(t: Token)
    requires t != []
    ensures ServerToken([SchemeAndSpace + Encode(t)]) == t
    ensures var w := ServerTokenAsWritten([SchemeAndSpace + Encode(t)]);
      |w| > 0 && w[0] == 157
  {
    SchemeIsLower();
    ServerTokenRecovers([SchemeAndSpace + Encode(t)], SchemeAndSpace, t);
    AsWrittenKeepsScheme(t);
    DecodeLowercaseScheme(Encode(t));
  }

  /** The case-sensitive strip leaves a lower-case scheme in place. */
  lemma AsWrittenKeepsScheme(t: Token)
    requires t != []
    ensures var v := SchemeAndSpace + Encode(t);
      ServerTokenAsWritten([v]) == Decode(v)
  {
    var v := SchemeAndSpace + Encode(t);
    SchemeIsLower();
    SchemeThenToken(SchemeAndSpace, t);
    assert FirstChallenge([v], SchemeAndSpace) == Some(v);
    assert v[0] != AuthPrefix[0];
    assert TrimPrefix(v, AuthPrefix) == v;
  }

  /** The token [65, 66, 67] is sent as "QUJD". */
  lemma EncodeQUJD(t: Token)
    requires t == [65, 66, 67]
    ensures Encode(t) == "QUJD"
  {
    EncodeLong(t);
    assert t[3..] == [];
  }
}
