/** The client side of HTTP Negotiate (section 4 of RFC 4559) as
    `sspiNegTransport` runs it: make the body replayable, send once, look
    for a Negotiate challenge on a 401, derive the SPN, then run at most
    five handshake legs, each on a fresh copy of the request carrying an
    `Authorization: Negotiate <base64 token>` header. */
module Negotiate {
  import opened Outcomes
  import opened Strings
  import opened Base64
  import opened Http
  import opened Platform

  const MaxLegs := 5
  const Scheme := "negotiate"
  const SchemeAndSpace := "negotiate "
  /** The scheme as the client writes it in `Authorization`. */
  const AuthPrefix := "Negotiate "

  // ---------------------------------------------------------------------
  // Body replay cache

  /** The `GetBody` bytes a request has once its body has been cached. */
  function ReplayAfterCaching(req: Request): Option<seq<byte>>
    reads req, req.body
  {
    if req.body != null && req.replay.None? then Some(req.body.data) else req.replay
  }

  /** Lines 29-40: a body without `GetBody` is read once, closed, replaced
      by a stream over the cached bytes, and `GetBody` then re-supplies
      those bytes; with `GetBody` already set the request is left alone. */
  method CacheBody(req: Request)
    modifies req, req.body
    ensures req.header == old(req.header) && req.host == old(req.host)
    ensures req.Snapshot() == old(req.Snapshot())
    ensures req.replay == old(ReplayAfterCaching(req))
    ensures req.body != null ==> req.replay.Some?
    ensures old(req.body) != null && old(req.replay).None? ==>
      && fresh(req.body) && req.body.readCount == 0 && !req.body.closed
      && old(req.body).readCount == old(req.body.readCount) + 1 && old(req.body).closed
      && req.contentLength == |old(req.body.data)|
    ensures !(old(req.body) != null && old(req.replay).None?) ==>
      && req.body == old(req.body) && req.contentLength == old(req.contentLength)
      && (req.body != null ==> unchanged(req.body))
  {
    if req.body != null && req.replay.None? {
      var original := req.body;
      var b := original.ReadAll();
      original.Close();
      var cached := b;
      req.body := new Stream(cached);
      req.replay := Some(cached);
      req.contentLength := |cached|;
    }
  }

  // ---------------------------------------------------------------------
  // Challenge scanning

  /** Whether a `Www-Authenticate` value, trimmed and lower-cased, starts with `prefix`. */
  predicate Offers(v: string, prefix: string)
  {
    HasPrefix(Lower(TrimSpace(v)), prefix)
  }

  /** The first value that offers `prefix`, scanning in order. */
  function FirstChallenge(values: seq<string>, prefix: string): (r: Option<string>)
    ensures r.Some? ==> r.value in values && Offers(r.value, prefix)
  {
    if values == [] then None
    else if Offers(values[0], prefix) then Some(values[0])
    else FirstChallenge(values[1..], prefix)
  }

  /** `FirstChallenge` finds the first offering value, and finds none
      exactly when no value offers `prefix`. */
  lemma {:induction false} FirstChallengeIsFirst(values: seq<string>, prefix: string)
    ensures FirstChallenge(values, prefix).None? <==> forall j :: 0 <= j < |values| ==> !Offers(values[j], prefix)
    ensures FirstChallenge(values, prefix).Some? ==>
      exists k :: 0 <= k < |values| && values[k] == FirstChallenge(values, prefix).value
        && Offers(values[k], prefix) && forall j :: 0 <= j < k ==> !Offers(values[j], prefix)
  {
    if values != [] && !Offers(values[0], prefix) {
      var rest := values[1..];
      FirstChallengeIsFirst(rest, prefix);
      assert forall j :: 1 <= j < |values| ==> values[j] == rest[j - 1];
      if FirstChallenge(rest, prefix).Some? {
        var k :| 0 <= k < |rest| && rest[k] == FirstChallenge(rest, prefix).value
          && Offers(rest[k], prefix) && forall j :: 0 <= j < k ==> !Offers(rest[j], prefix);
        assert values[k + 1] == rest[k];
      }
    } else if values != [] {
      assert values[0] == FirstChallenge(values, prefix).value;
    }
  }

  /** Lines 57-62: the text after the first space, trimmed and decoded. */
  function ChallengeToken(vv: string): (t: Token)
    ensures t != [] ==> ' ' in vv
  {
    var sp := IndexOf(vv, ' ');
    if sp < 0 then [] else Decode(TrimSpace(vv[sp + 1..]))
  }

  /** The token of the first Negotiate challenge of the initial 401. */
  function InitialToken(values: seq<string>): (t: Token)
    ensures t != [] ==> FirstChallenge(values, Scheme).Some? && ' ' in TrimSpace(FirstChallenge(values, Scheme).value)
  {
    match FirstChallenge(values, Scheme)
    case None => []
    case Some(v) => ChallengeToken(TrimSpace(v))
  }

  /** Lines 51-66: the scan of the first 401's challenges. */
  method ScanChallenge(values: seq<string>) returns (offered: bool, token: Token)
    ensures offered <==> FirstChallenge(values, Scheme).Some?
    ensures token == InitialToken(values)
  {
    offered, token := false, [];
    var i := 0;
    while i < |values|
      invariant 0 <= i <= |values|
      invariant FirstChallenge(values[i..], Scheme) == FirstChallenge(values, Scheme)
      invariant !offered && token == []
    {
      assert values[i..][0] == values[i];
      if Offers(values[i], Scheme) {
        var vv := TrimSpace(values[i]);
        offered := true;
        var sp := IndexOf(vv, ' ');
        if sp >= 0 {
          var tok := Decode(TrimSpace(vv[sp + 1..]));
          if |tok| > 0 {
            token := tok;
          }
        }
        assert token == ChallengeToken(vv);
        assert FirstChallenge(values, Scheme) == Some(values[i]);
        break;
      }
      assert values[i..][1..] == values[i + 1..];
      i := i + 1;
    }
  }

  /** `strings.TrimPrefix`. */
  function TrimPrefix(s: string, p: string): string
  {
    if HasPrefix(s, p) then s[|p|..] else s
  }

  /** Line 127 as written: the scheme is stripped only when spelled exactly
      `Negotiate `, although line 126 matched it ignoring case. */
  function LegTokenTextAsWritten(vv: string): string
  {
    TrimSpace(TrimPrefix(vv, AuthPrefix))
  }

  /** The scheme stripped ignoring case, as line 126 matched it. */
  function LegTokenText(vv: string): string
  {
    TrimSpace(if HasPrefix(Lower(vv), SchemeAndSpace) then vv[|SchemeAndSpace|..] else vv)
  }

  /** Lines 123-134 as written: the server token of a leg's 401. */
  function ServerTokenAsWritten(values: seq<string>): (t: Token)
    ensures t != [] ==> FirstChallenge(values, SchemeAndSpace).Some?
  {
    match FirstChallenge(values, SchemeAndSpace)
    case None => []
    case Some(v) => Decode(LegTokenTextAsWritten(TrimSpace(v)))
  }

  /** Lines 123-134 with the scheme stripped ignoring case (see Findings). */
  function ServerToken(values: seq<string>): (t: Token)
    ensures t != [] ==> FirstChallenge(values, SchemeAndSpace).Some?
  {
    match FirstChallenge(values, SchemeAndSpace)
    case None => []
    case Some(v) => Decode(LegTokenText(TrimSpace(v)))
  }

  /** The server token a leg's 401 carries, read as line 127 is written. */
  function LegServerToken(r: Response): (t: Token)
    ensures t != [] ==> FirstChallenge(Values(r.header, WwwAuthenticate), SchemeAndSpace).Some?
  {
    ServerTokenAsWritten(Values(r.header, WwwAuthenticate))
  }

  /** The scan of a leg's 401 for the server's next token. */
  method ScanServerToken(values: seq<string>) returns (token: Token)
    ensures token == ServerTokenAsWritten(values)
  {
    token := [];
    var i := 0;
    while i < |values|
      invariant 0 <= i <= |values|
      invariant FirstChallenge(values[i..], SchemeAndSpace) == FirstChallenge(values, SchemeAndSpace)
      invariant token == []
    {
      assert values[i..][0] == values[i];
      if Offers(values[i], SchemeAndSpace) {
        var tok := Decode(LegTokenTextAsWritten(TrimSpace(values[i])));
        if |tok| > 0 {
          token := tok;
        }
        break;
      }
      assert values[i..][1..] == values[i + 1..];
      i := i + 1;
    }
  }

  // ---------------------------------------------------------------------
  // Service principal name

  predicate IsLoopback(host: string)
  {
    host == "localhost" || host == "127.0.0.1" || host == "::1"
  }

  /** Lines 75-81: `HTTP/<host>`, a loopback host being replaced by the
      machine name when that lookup succeeds with a non-empty name. */
  function ServicePrincipalName(host: string, hostname: Result<string>): (spn: string)
    ensures HasPrefix(spn, "HTTP/")
    ensures !IsLoopback(host) ==> spn[5..] == host
    ensures IsLoopback(host) && hostname.Ok? && hostname.value != "" ==> spn[5..] == hostname.value
    ensures IsLoopback(host) && !(hostname.Ok? && hostname.value != "") ==> spn[5..] == host
  {
    var h := if IsLoopback(host) && hostname.Ok? && hostname.value != "" then hostname.value else host;
    "HTTP/" + h
  }

  // ---------------------------------------------------------------------
  // The exchange as a function of the request and the oracles' answers

  /** What a round trip returns, the calls it made, and how many scripted
      answers of each kind were used once it is over. */
  datatype Run = Run(result: Result<Response>, events: seq<Event>, sent: nat, updated: nat)

  /** Stated once so that callers need not prove it on large terms. */
  lemma AppendAssociates(a: seq<Event>, b: seq<Event>, c: seq<Event>)
    ensures a + b + c == a + (b + c)
  {
  }

  /** `r` with the calls `evs` made before it. */
  function Prepend(evs: seq<Event>, r: Run): Run
  {
    r.(events := evs + r.events)
  }

  /** The copy of the request one leg sends: the caller's headers plus the
      proof header. */
  function WithToken(base: Wire, tok: Token): Wire
  {
    base.(header := SetHeader(base.header, Authorization, AuthPrefix + Encode(tok)))
  }

  /** How one leg ends: the loop stops with a result, or goes on with the
      server's token and the drained 401. Either way it names the calls it
      made and the counts of scripted answers used after it. */
  datatype Step =
    | Stop(result: Result<Response>, events: seq<Event>, sent: nat, updated: nat)
    | Continue(events: seq<Event>, nextIn: Token, last: Response, sent: nat, updated: nat)

  /** Lines 96-143: leg `i`, after `sent` sends and `updated` updates. Leg 0
      sends the context's first token; later legs first feed the server's
      token to the context. `read` takes a 401 to the server token it
      carries (`LegServerToken`, line 127 as written, in the transport); keeping it a parameter
      lets the facts about the loop stand apart from header parsing. */
  function LegStep(i: nat, inToken: Token, out0: Token, base: Wire, env: Env, read: Response -> Token,
                   sent: nat, updated: nat): Step
  {
    var step := if i == 0 then Advanced(false, out0) else NextUpdate(env, updated);
    var updated' := if i == 0 then updated else updated + 1;
    var asked := if i == 0 then [] else [ContextUpdate(inToken)];
    if step.UpdateFailed? then Stop(Err(step.err), asked, sent, updated')
    else
      var evs := asked + [Sent(WithToken(base, step.token))];
      var o := NextSend(env, sent);
      if o.TransportError? then Stop(Err(o.err), evs, sent + 1, updated')
      else if o.resp.status != StatusUnauthorized then Stop(Ok(o.resp), evs, sent + 1, updated')
      else
        var nextIn := read(o.resp);
        if step.done && nextIn == [] then Stop(Ok(Drained(o.resp)), evs, sent + 1, updated')
        else Continue(evs, nextIn, Drained(o.resp), sent + 1, updated')
  }

  /** Lines 95-145 from leg `i` on: `inToken` is the server token of the
      previous leg, `last` the most recent (drained) 401, and `done` the
      calls made before leg `i`. */
  function Legs(i: nat, inToken: Token, out0: Token, base: Wire, env: Env, read: Response -> Token,
                sent: nat, updated: nat, last: Response, done: seq<Event>): Run
    requires i <= MaxLegs
    decreases MaxLegs - i, 2
  {
    if i == MaxLegs then Run(Ok(last), done, sent, updated)
    else LegsFrom(i, inToken, out0, base, env, read, sent, updated, done)
  }

  /** Leg `i` and those after it, when the loop reaches leg `i`. */
  function LegsFrom(i: nat, inToken: Token, out0: Token, base: Wire, env: Env, read: Response -> Token,
                    sent: nat, updated: nat, done: seq<Event>): Run
    requires i < MaxLegs
    decreases MaxLegs - i, 1
  {
    After(i, LegStep(i, inToken, out0, base, env, read, sent, updated), out0, base, env, read, done)
  }

  /** The handshake once leg `i` has ended as `st` says. */
  function After(i: nat, st: Step, out0: Token, base: Wire, env: Env, read: Response -> Token,
                 done: seq<Event>): Run
    requires i < MaxLegs
    decreases MaxLegs - i, 0
  {
    match st
    case Stop(r, evs, s, u) => Run(r, done + evs, s, u)
    case Continue(evs, t, l, s, u) => Legs(i + 1, t, out0, base, env, read, s, u, l, done + evs)
  }

  /** `Legs` one leg at a time. */
  lemma LegsUnfold(i: nat, inToken: Token, out0: Token, base: Wire, env: Env, read: Response -> Token,
                   sent: nat, updated: nat, last: Response, done: seq<Event>)
    requires i < MaxLegs
    ensures var st := LegStep(i, inToken, out0, base, env, read, sent, updated);
      Legs(i, inToken, out0, base, env, read, sent, updated, last, done)
      == if st.Stop? then Run(st.result, done + st.events, st.sent, st.updated)
         else Legs(i + 1, st.nextIn, out0, base, env, read, st.sent, st.updated, st.last, done + st.events)
  {
  }

  /** The calls made before the handshake only prefix its record. */
  lemma {:induction false} LegsPrefix(i: nat, inToken: Token, out0: Token, base: Wire, env: Env,
                                      read: Response -> Token, sent: nat, updated: nat, last: Response,
                                      p: seq<Event>, done: seq<Event>)
    requires i <= MaxLegs
    ensures Legs(i, inToken, out0, base, env, read, sent, updated, last, p + done)
         == Prepend(p, Legs(i, inToken, out0, base, env, read, sent, updated, last, done))
    decreases MaxLegs - i, 1
  {
    if i < MaxLegs {
      LegsFromPrefix(i, inToken, out0, base, env, read, sent, updated, p, done);
    }
  }

  lemma {:induction false} LegsFromPrefix(i: nat, inToken: Token, out0: Token, base: Wire, env: Env,
                                          read: Response -> Token, sent: nat, updated: nat,
                                          p: seq<Event>, done: seq<Event>)
    requires i < MaxLegs
    ensures LegsFrom(i, inToken, out0, base, env, read, sent, updated, p + done)
         == Prepend(p, LegsFrom(i, inToken, out0, base, env, read, sent, updated, done))
    decreases MaxLegs - i, 0
  {
    var st := LegStep(i, inToken, out0, base, env, read, sent, updated);
    AppendAssociates(p, done, st.events);
    if st.Continue? {
      LegsPrefix(i + 1, st.nextIn, out0, base, env, read, st.sent, st.updated, st.last, p, done + st.events);
    }
  }

  /** Lines 27-146 after `sent` sends and `updated` updates: `first` is the
      request as first sent, `replay` the bytes `GetBody` supplies to every
      leg. */
  function Exchange(first: Wire, replay: Option<seq<byte>>, env: Env, sent: nat, updated: nat): (run: Run)
    ensures run.events != [] && run.events[0] == Sent(first)
    ensures NextSend(env, sent).TransportError? ==>
      run == Run(Err(NextSend(env, sent).err), [Sent(first)], sent + 1, updated)
    ensures NextSend(env, sent).Delivered? && NextSend(env, sent).resp.status != StatusUnauthorized ==>
      run == Run(Ok(NextSend(env, sent).resp), [Sent(first)], sent + 1, updated)
  {
    var o := NextSend(env, sent);
    if o.TransportError? then Run(Err(o.err), [Sent(first)], sent + 1, updated)
    else if o.resp.status != StatusUnauthorized then Run(Ok(o.resp), [Sent(first)], sent + 1, updated)
    else Prepend([Sent(first)], Challenged(Wire(first.header, first.host, replay), o.resp, env, sent + 1, updated))
  }

  /** Lines 51-145, once the first send came back 401: with no Negotiate
      challenge the 401 itself is returned and nothing more is called. */
  function Challenged(base: Wire, resp: Response, env: Env, sent: nat, updated: nat): (run: Run)
    ensures FirstChallenge(Values(resp.header, WwwAuthenticate), Scheme).None? ==>
      run == Run(Ok(resp), [], sent, updated)
  {
    var values := Values(resp.header, WwwAuthenticate);
    if FirstChallenge(values, Scheme).None? then Run(Ok(resp), [], sent, updated)
    else Negotiation(base, InitialToken(values), Drained(resp), env, sent, updated)
  }

  /** Lines 75-145, once a Negotiate challenge has arrived: credentials, a
      context for the SPN of `base.host`, the legs, and the releases in
      reverse order of acquisition. */
  function Negotiation(base: Wire, inToken: Token, last: Response, env: Env, sent: nat, updated: nat): (run: Run)
    ensures env.credentials.Some? ==> run == Run(Err(env.credentials.value), [CredentialsAcquire], sent, updated)
    ensures env.credentials.None? && env.context.Err? ==>
      run == Run(Err(env.context.error),
                 [CredentialsAcquire, ContextCreate(ServicePrincipalName(base.host, env.hostname)), CredentialsRelease],
                 sent, updated)
    ensures env.credentials.None? ==> |run.events| >= 2 && run.events[|run.events| - 1] == CredentialsRelease
  {
    if env.credentials.Some? then Run(Err(env.credentials.value), [CredentialsAcquire], sent, updated)
    else
      var created := [CredentialsAcquire, ContextCreate(ServicePrincipalName(base.host, env.hostname))];
      if env.context.Err? then
        Run(Err(env.context.error), created + [CredentialsRelease], sent, updated)
      else
        var legs := Legs(0, inToken, env.context.value, base, env, LegServerToken, sent, updated, last, created);
        Run(legs.result, legs.events + [ContextRelease, CredentialsRelease], legs.sent, legs.updated)
  }

  /** With credentials and a context, the record is that of the legs
      followed by the two releases. */
  lemma NegotiationLegs(base: Wire, inToken: Token, last: Response, env: Env, sent: nat, updated: nat)
    requires env.credentials.None? && env.context.Ok?
    ensures var created := [CredentialsAcquire, ContextCreate(ServicePrincipalName(base.host, env.hostname))];
      var legs := Legs(0, inToken, env.context.value, base, env, LegServerToken, sent, updated, last, created);
      Negotiation(base, inToken, last, env, sent, updated)
        == Run(legs.result, legs.events + [ContextRelease, CredentialsRelease], legs.sent, legs.updated)
  {
  }

  // ---------------------------------------------------------------------
  // The transport

  /** `req.Clone` followed by `cloneHeader` and `Header.Set`: a fresh
      request with a fresh body stream from `GetBody`. */
  method CloneForLeg(req: Request, tok: Token) returns (r2: Request)
    requires req.body != null ==> req.replay.Some?
    ensures fresh(r2) && (r2.body == null || fresh(r2.body))
    ensures r2.Snapshot() == WithToken(Wire(req.header, req.host, req.replay), tok)
  {
    var body := req.body;
    if req.replay.Some? {
      body := req.GetBody();
    }
    var h := CloneHeader(req.header);
    r2 := new Request(SetHeader(h, Authorization, AuthPrefix + Encode(tok)), req.host, body,
                      req.replay, req.contentLength);
  }

  class NegotiateTransport {
    const platform: Host

    constructor (platform: Host)
      ensures this.platform == platform
    {
      this.platform := platform;
    }

    /** One iteration of the loop of lines 95-144, as `LegStep` describes it. */
    method Leg(req: Request, i: nat, inToken: Token, out0: Token, last: Response)
      returns (stop: bool, res: Result<Response>, nextIn: Token, resp: Response, ghost evs: seq<Event>)
      requires req.body != null ==> req.replay.Some?
      modifies platform
      ensures var st := LegStep(i, inToken, out0, Wire(req.header, req.host, req.replay), platform.Oracles(),
                                LegServerToken, old(platform.sent), old(platform.updated));
        && stop == st.Stop?
        && evs == st.events && platform.sent == st.sent && platform.updated == st.updated
        && (stop ==> res == st.result)
        && (!stop ==> nextIn == st.nextIn && resp == st.last)
      ensures platform.log == old(platform.log) + evs
    {
      ghost var base := Wire(req.header, req.host, req.replay);
      stop, res, nextIn, resp, evs := true, Ok(last), [], last, [];
      var step: UpdateOutcome;
      if i == 0 {
        step := Advanced(false, out0);
      } else {
        step := platform.Update(inToken);
        evs := [ContextUpdate(inToken)];
      }
      if step.UpdateFailed? {
        res := Err(step.err);
        return;
      }
      var r2 := CloneForLeg(req, step.token);
      var o := platform.Send(r2);
      evs := evs + [Sent(WithToken(base, step.token))];
      if o.TransportError? {
        res := Err(o.err);
      } else if o.resp.status != StatusUnauthorized {
        res := Ok(o.resp);
      } else {
        nextIn := ScanServerToken(Values(o.resp.header, WwwAuthenticate));
        resp := Drained(o.resp);
        if step.done && nextIn == [] {
          res := Ok(resp);
        } else {
          stop := false;
        }
      }
    }

    /** Leg `i` of the loop, stated against the rest of the handshake:
        either the loop ends with `res` as `Legs` says, or what `Legs`
        still promises is the handshake from leg `i + 1`. */
    method NextLeg(req: Request, ghost base: Wire, i: nat, inToken: Token, out0: Token, last: Response)
      returns (stop: bool, res: Result<Response>, nextIn: Token, resp: Response)
      requires i < MaxLegs
      requires req.body != null ==> req.replay.Some?
      requires base == Wire(req.header, req.host, req.replay)
      modifies platform
      ensures var run := Legs(i, inToken, out0, base, platform.Oracles(), LegServerToken, old(platform.sent), old(platform.updated),
                              last, old(platform.log));
        if stop then Run(res, platform.log, platform.sent, platform.updated) == run
        else Legs(i + 1, nextIn, out0, base, platform.Oracles(), LegServerToken, platform.sent, platform.updated, resp, platform.log) == run
    {
      LegsUnfold(i, inToken, out0, base, platform.Oracles(), LegServerToken, platform.sent, platform.updated, last, platform.log);
      ghost var evs;
      stop, res, nextIn, resp, evs := Leg(req, i, inToken, out0, last);
    }

    /** Lines 93-145: the handshake loop, at most `MaxLegs` legs. */
    method Handshake(req: Request, inToken0: Token, out0: Token, last: Response) returns (res: Result<Response>)
      requires req.body != null ==> req.replay.Some?
      modifies platform
      ensures var run := Legs(0, inToken0, out0, Wire(req.header, req.host, req.replay), platform.Oracles(),
                              LegServerToken, old(platform.sent), old(platform.updated), last, old(platform.log));
        Run(res, platform.log, platform.sent, platform.updated) == run
    {
      ghost var base := Wire(req.header, req.host, req.replay);
      ghost var env := platform.Oracles();
      ghost var goal := Legs(0, inToken0, out0, base, env, LegServerToken, platform.sent, platform.updated, last, platform.log);
      var inToken, resp := inToken0, last;
      var i := 0;
      while i < MaxLegs
        invariant 0 <= i <= MaxLegs
        invariant Legs(i, inToken, out0, base, env, LegServerToken, platform.sent, platform.updated, resp, platform.log) == goal
      {
        var stop;
        stop, res, inToken, resp := NextLeg(req, base, i, inToken, out0, resp);
        if stop {
          return;
        }
        i := i + 1;
      }
      res := Ok(resp);
    }

    /** Lines 75-145: everything after a Negotiate challenge. */
    method Authenticate(req: Request, inToken: Token, last: Response) returns (res: Result<Response>)
      requires req.body != null ==> req.replay.Some?
      modifies platform
      ensures var run := Negotiation(Wire(req.header, req.host, req.replay), inToken, last, platform.Oracles(),
                                     old(platform.sent), old(platform.updated));
        Run(res, platform.log, platform.sent, platform.updated) == Prepend(old(platform.log), run)
    {
      ghost var env := platform.Oracles();
      ghost var log0, sent0, updated0 := platform.log, platform.sent, platform.updated;
      var spn := ServicePrincipalName(req.host, platform.Hostname());
      ghost var base := Wire(req.header, req.host, req.replay);
      var credErr := platform.AcquireCredentials();
      if credErr.Some? {
        res := Err(credErr.value);
        assert Negotiation(base, inToken, last, env, sent0, updated0) == Run(res, [CredentialsAcquire], sent0, updated0);
        return;
      }
      var ctx := platform.NewClientContext(spn);
      if ctx.Err? {
        platform.ReleaseCredentials();
        res := Err(ctx.error);
        assert Negotiation(base, inToken, last, env, sent0, updated0)
          == Run(res, [CredentialsAcquire, ContextCreate(spn), CredentialsRelease], sent0, updated0);
        return;
      }
      ghost var created := [CredentialsAcquire, ContextCreate(spn)];
      assert platform.log == log0 + created;
      res := Handshake(req, inToken, ctx.value, last);
      LegsPrefix(0, inToken, ctx.value, base, env, LegServerToken, sent0, updated0, last, log0, created);
      ghost var legs := Legs(0, inToken, ctx.value, base, env, LegServerToken, sent0, updated0, last, created);
      assert res == legs.result && platform.sent == legs.sent && platform.updated == legs.updated
        && platform.log == log0 + legs.events;
      platform.ReleaseContext();
      platform.ReleaseCredentials();
      AppendAssociates(log0, legs.events, [ContextRelease, CredentialsRelease]);
      NegotiationLegs(base, inToken, last, env, sent0, updated0);
    }

    /** `sspiNegTransport.RoundTrip`. */
    method RoundTrip(req: Request) returns (res: Result<Response>)
      modifies req, req.body, platform
      ensures req.header == old(req.header) && req.host == old(req.host)
      ensures req.replay == old(ReplayAfterCaching(req))
      ensures old(req.body) != null && old(req.replay).None? ==>
        && fresh(req.body) && req.contentLength == |old(req.body.data)|
        && old(req.body).readCount == old(req.body.readCount) + 1 && old(req.body).closed
      ensures !(old(req.body) != null && old(req.replay).None?) ==>
        req.body == old(req.body) && req.contentLength == old(req.contentLength)
      ensures req.body != null ==>
        && req.body.data == [] && req.body.closed
        && req.body.readCount == if old(req.replay).None? then 1 else old(req.body.readCount) + 1
      ensures var run := Exchange(old(req.Snapshot()), old(ReplayAfterCaching(req)), platform.Oracles(),
                                  old(platform.sent), old(platform.updated));
        Run(res, platform.log, platform.sent, platform.updated) == Prepend(old(platform.log), run)
    {
      CacheBody(req);
      res := Exchanged(req);
    }

    /** Lines 43-145, on a request whose body can be replayed. Only the first
        send hands over `req` itself, so its body is consumed once. */
    method Exchanged(req: Request) returns (res: Result<Response>)
      requires req.body != null ==> req.replay.Some?
      modifies platform, req.body
      ensures req.body != null ==>
        req.body.data == [] && req.body.readCount == old(req.body.readCount) + 1 && req.body.closed
      ensures var run := Exchange(old(req.Snapshot()), old(req.replay), platform.Oracles(),
                                  old(platform.sent), old(platform.updated));
        Run(res, platform.log, platform.sent, platform.updated) == Prepend(old(platform.log), run)
    {
      ghost var log0 := platform.log;
      ghost var first := req.Snapshot();
      var o := platform.Send(req);
      if o.TransportError? {
        res := Err(o.err);
      } else if o.resp.status != StatusUnauthorized {
        res := Ok(o.resp);
      } else {
        ghost var run := Challenged(Wire(req.header, req.host, req.replay), o.resp, platform.Oracles(),
                                    platform.sent, platform.updated);
        res := Challenge(req, o.resp);
        AppendAssociates(log0, [Sent(first)], run.events);
      }
    }

    /** Lines 51-145: the scan of the first 401, then the handshake when
        it offers Negotiate. */
    method Challenge(req: Request, resp: Response) returns (res: Result<Response>)
      requires req.body != null ==> req.replay.Some?
      modifies platform
      ensures var run := Challenged(Wire(req.header, req.host, req.replay), resp, platform.Oracles(),
                                    old(platform.sent), old(platform.updated));
        Run(res, platform.log, platform.sent, platform.updated) == Prepend(old(platform.log), run)
    {
      var offered, inToken := ScanChallenge(Values(resp.header, WwwAuthenticate));
      if !offered {
        res := Ok(resp);
      } else {
        res := Authenticate(req, inToken, Drained(resp));
      }
    }
  }
}
