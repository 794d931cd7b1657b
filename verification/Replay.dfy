/**
 Replay protection over whole runs: how far apart two acceptances must lie, of one
 nonce, of one authorization as written, and of one signed message.
 */
module Replay {
  import opened Base58
  import opened Crypto
  import opened Decimal
  import opened Envelope
  import opened Facilitator
  import opened HashText
  import Notes
  import opened Payment
  import opened Runs
  import opened Scheme
  import opened SignMessage
  import opened Wrappers

  /** Over every run, two requests that pass the nonce check with one nonce do so a lifetime apart. */
  lemma PassesAreApart(config: Config, events: seq<Event>, i: nat, j: nat)
    requires i < |Run(config, INITIAL, events).flights| && j < |Run(config, INITIAL, events).flights| && i != j
    ensures
      var fs := Run(config, INITIAL, events).flights;
      Recorder(fs[i]) && Recorder(fs[j]) && fs[i].phase.auth.nonce == fs[j].phase.auth.nonce ==>
        || fs[i].phase.passedAt + config.ttl <= fs[j].phase.passedAt
        || fs[j].phase.passedAt + config.ttl <= fs[i].phase.passedAt
  {
    InitialOk(config);
    RunKeeps(config, INITIAL, events);
    assert Apart(config.ttl, Run(config, INITIAL, events).flights[i], Run(config, INITIAL, events).flights[j]);
  }

  /** The first and the last clock reading at which the window check lets an authorization through. */
  function Opens(config: Config, auth: Authorization): nat {
    if auth.validAfter < config.skew then 0 else auth.validAfter - config.skew
  }

  function Closes(config: Config, auth: Authorization): nat {
    if auth.validBefore + config.skew > U64_MAX then U64_MAX else auth.validBefore + config.skew
  }

  lemma WindowIsInterval(config: Config, now: u64, auth: Authorization)
    ensures InWindow(config, now, auth) <==> Opens(config, auth) <= now <= Closes(config, auth)
  {
  }

  // ---------------------------------------------------------------------------
  // Who has passed with a nonce
  // ---------------------------------------------------------------------------

  /** Every recorded key is that of a request which passed at the recorded time. */
  ghost predicate RecordsHavePassers(m: Machine) {
    forall key :: key in m.st.cache ==> exists i :: 0 <= i < |m.flights| && Wrote(m.flights[i], key, m.st.cache[key])
  }

  predicate Wrote(f: Flight, key: string, time: u64) {
    Recorder(f) && ReplayKey(f.phase.auth.nonce) == key && f.phase.passedAt == time
  }

  lemma NextKeepsWrites(config: Config, st: State, f: Flight, key: string)
    requires FlightOk(config, st.now, f) && Recorded(st.cache, f)
    ensures
      var (phase, after) := Next(config, st, f);
      && (forall time :: Wrote(f, key, time) ==> Wrote(f.(phase := phase), key, time))
      && (key in after.cache ==>
            || (key in st.cache && after.cache[key] == st.cache[key])
            || Wrote(f.(phase := phase), key, after.cache[key]))
  {
    NextKeeps(config, st, f);
    hide Admission, Dispatch, CheckTimeWindow, ReplayKey, EntryFor, InWindow;
  }

  lemma StepKeepsPassers(config: Config, m: Machine, e: Event)
    requires FlightsOk(config, m) && RecordsHavePassers(m)
    ensures RecordsHavePassers(Step(config, m, e))
  {
    forall key | key in Step(config, m, e).st.cache
      ensures
        var after := Step(config, m, e);
        exists i :: 0 <= i < |after.flights| && Wrote(after.flights[i], key, after.st.cache[key])
    {
      if e.Advance? && e.i < |m.flights| {
        AdvanceKeepsPasser(config, m, e.i, key);
      } else {
        var i :| 0 <= i < |m.flights| && Wrote(m.flights[i], key, m.st.cache[key]);
        hide Wrote;
        assert Step(config, m, e).flights[i] == m.flights[i];
      }
    }
  }

  lemma AdvanceKeepsPasser(config: Config, m: Machine, k: nat, key: string)
    requires FlightsOk(config, m) && RecordsHavePassers(m) && k < |m.flights|
    requires key in Step(config, m, Advance(k)).st.cache
    ensures
      var after := Step(config, m, Advance(k));
      exists i :: 0 <= i < |after.flights| && Wrote(after.flights[i], key, after.st.cache[key])
  {
    var after := Step(config, m, Advance(k));
    assert FlightOk(config, m.st.now, m.flights[k]) && Recorded(m.st.cache, m.flights[k]);
    hide Next, FlightOk, Recorded, Wrote, HandedOver, FlightsOk;
    NextKeepsWrites(config, m.st, m.flights[k], key);
    if key in m.st.cache && after.st.cache[key] == m.st.cache[key] {
      var i :| 0 <= i < |m.flights| && Wrote(m.flights[i], key, m.st.cache[key]);
      assert Wrote(after.flights[i], key, after.st.cache[key]);
    } else {
      assert Wrote(after.flights[k], key, after.st.cache[key]);
    }
  }

  lemma {:induction false} RunKeepsPassers(config: Config, events: seq<Event>)
    ensures RecordsHavePassers(Run(config, INITIAL, events))
  {
    if events == [] {
    } else {
      var before := events[..|events| - 1];
      RunKeepsPassers(config, before);
      InitialOk(config);
      RunKeeps(config, INITIAL, before);
      hide RecordsHavePassers, FlightsOk, AllApart, CatalogOk, Step;
      StepKeepsPassers(config, Run(config, INITIAL, before), events[|events| - 1]);
    }
  }

  /** Some request, whatever its handler said of it, passed with this nonce within the last lifetime. */
  ghost predicate PassedLately(config: Config, m: Machine, nonce: string) {
    exists i :: 0 <= i < |m.flights| && PassedWith(m.flights[i], nonce) && m.st.now < m.flights[i].phase.passedAt + config.ttl
  }

  predicate PassedWith(f: Flight, nonce: string) {
    Recorder(f) && f.phase.auth.nonce == nonce
  }

  /** In every run, a nonce is remembered exactly when some request has passed with it lately. */
  lemma RememberedIff(config: Config, events: seq<Event>, nonce: string)
    ensures
      var m := Run(config, INITIAL, events);
      Remembered(config, m.st.now, m.st.cache, nonce) <==> PassedLately(config, m, nonce)
  {
    var m := Run(config, INITIAL, events);
    InitialOk(config);
    RunKeeps(config, INITIAL, events);
    RunKeepsPassers(config, events);
    hide Run;
    if Remembered(config, m.st.now, m.st.cache, nonce) {
      var i :| 0 <= i < |m.flights| && Wrote(m.flights[i], ReplayKey(nonce), m.st.cache[ReplayKey(nonce)]);
      KeysDiffer(m.flights[i].phase.auth.nonce, nonce);
      assert PassedWith(m.flights[i], nonce);
    }
    if PassedLately(config, m, nonce) {
      var i :| 0 <= i < |m.flights| && PassedWith(m.flights[i], nonce) && m.st.now < m.flights[i].phase.passedAt + config.ttl;
      assert Recorded(m.st.cache, m.flights[i]);
    }
  }

  /**
   In every run, `/verify` accepts an acceptable request exactly when its window is open
   and nobody has passed with its nonce lately. Who that was, and whether under a valid
   signature, makes no difference.
   */
  lemma AcceptedUnlessPassed(config: Config, events: seq<Event>, req: Request)
    requires Acceptable(config, req)
    ensures
      var m, auth := Run(config, INITIAL, events), Admission(config, req).value;
      CheckEnvelope(config, m.st, req, Consume).0.Ok? <==>
      InWindow(config, m.st.now, auth) && !PassedLately(config, m, auth.nonce)
  {
    hide Run, Admission, Dispatch, CheckEnvelope, Remembered, PassedLately, InWindow;
    EnvelopeAcceptsIff(config, Run(config, INITIAL, events).st, req, Consume);
    RememberedIff(config, events, Admission(config, req).value.nonce);
  }

  // ---------------------------------------------------------------------------
  // What counts as the same payment
  // ---------------------------------------------------------------------------

  /** A set of authorizations that are one and the same claim on the payer. */
  type Claim = Authorization -> bool

  /** The authorization exactly as written. */
  function Verbatim(auth: Authorization): Claim {
    (a: Authorization) => a == auth
  }

  /** The two are signed as one Belt sequence, so a signature of one is a signature of the other. */
  predicate SameSigned(tip5: Tip5, a: Authorization, b: Authorization) {
    MessageBelts(tip5, a).Ok? && MessageBelts(tip5, a) == MessageBelts(tip5, b)
  }

  /** Every authorization that one signature covers. */
  function AnySpelling(tip5: Tip5, auth: Authorization): Claim {
    (a: Authorization) => SameSigned(tip5, a, auth)
  }

  /** The nonce has no leading '1' and the times are field elements. */
  predicate Plain(a: Authorization) {
    StripOnes(a.nonce) == a.nonce && a.validAfter < PRIME && a.validBefore < PRIME
  }

  /** The plainly written authorizations that one signature covers. */
  function PlainSpellings(tip5: Tip5, auth: Authorization): Claim {
    (a: Authorization) => Plain(a) && SameSigned(tip5, a, auth)
  }

  /** The claim has one nonce and one window: those of this authorization, which belongs to it. */
  ghost predicate FixesTerms(same: Claim, auth: Authorization) {
    && same(auth)
    && forall a :: same(a) ==>
         a.nonce == auth.nonce && a.validAfter == auth.validAfter && a.validBefore == auth.validBefore
  }

  lemma VerbatimFixesTerms(auth: Authorization)
    ensures FixesTerms(Verbatim(auth), auth)
  {
  }

  /** A signature fixes the nonce and the times of everything plainly written that it covers. */
  lemma PlainFixesTerms(tip5: Tip5, auth: Authorization)
    requires Plain(auth) && MessageBelts(tip5, auth).Ok?
    ensures FixesTerms(PlainSpellings(tip5, auth), auth)
  {
    forall a | PlainSpellings(tip5, auth)(a)
      ensures a.nonce == auth.nonce && a.validAfter == auth.validAfter && a.validBefore == auth.validBefore
    {
      SameBeltsSamePayment(tip5, a, auth);
      hide MessageBelts, StripOnes, DecimalToBelt, Notes.NotesHash;
    }
    hide MessageBelts, StripOnes;
  }

  // ---------------------------------------------------------------------------
  // Two acceptances
  // ---------------------------------------------------------------------------

  /** The claim was accepted by `/verify`, at most `lag` after its window check. */
  predicate VerifiedWithin(f: Flight, same: Claim, lag: nat) {
    f.mode.Consume? && f.phase.Accepted() && same(f.phase.auth) && f.phase.passedAt <= f.phase.seenAt + lag
  }

  /** In this run the claim is accepted twice, in whatever requests it came. */
  ghost predicate AcceptedTwice(config: Config, same: Claim, lag: nat, events: seq<Event>) {
    var fs := Run(config, INITIAL, events).flights;
    exists i, j :: 0 <= i < |fs| && 0 <= j < |fs| && i != j && VerifiedWithin(fs[i], same, lag) && VerifiedWithin(fs[j], same, lag)
  }

  /** Some clock allows a second pass: the window is open, and outlasts the nonce's lifetime. */
  predicate RoomForTwo(config: Config, auth: Authorization, lag: nat) {
    && Opens(config, auth) <= Closes(config, auth)
    && Opens(config, auth) + config.ttl <= Closes(config, auth) + lag
    && Opens(config, auth) + config.ttl <= U64_MAX
  }

  /** A flight that was accepted was entitled to be, inside its own window. */
  lemma AcceptedInWindow(config: Config, events: seq<Event>, i: nat)
    requires i < |Run(config, INITIAL, events).flights| && Run(config, INITIAL, events).flights[i].phase.Accepted()
    ensures
      var f := Run(config, INITIAL, events).flights[i];
      && Acceptable(config, f.req) && Admission(config, f.req) == Ok(f.phase.auth)
      && Opens(config, f.phase.auth) <= f.phase.seenAt <= Closes(config, f.phase.auth)
      && f.phase.seenAt <= f.phase.passedAt
  {
    var m := Run(config, INITIAL, events);
    InitialOk(config);
    RunKeeps(config, INITIAL, events);
    hide Run, Admission, Dispatch, InWindow, Opens, Closes;
    assert FlightOk(config, m.st.now, m.flights[i]);
    WindowIsInterval(config, m.flights[i].phase.seenAt, m.flights[i].phase.auth);
  }

  lemma TwiceNeedsRoom(config: Config, same: Claim, auth: Authorization, lag: nat, events: seq<Event>)
    requires FixesTerms(same, auth) && AcceptedTwice(config, same, lag, events)
    ensures RoomForTwo(config, auth, lag)
  {
    hide Run, Acceptable, Admission;
    var fs := Run(config, INITIAL, events).flights;
    var i, j :| 0 <= i < |fs| && 0 <= j < |fs| && i != j
      && VerifiedWithin(fs[i], same, lag) && VerifiedWithin(fs[j], same, lag);
    AcceptedInWindow(config, events, i);
    AcceptedInWindow(config, events, j);
    PassesAreApart(config, events, i, j);
  }

  /** The clock moves on. */
  lemma Wait(config: Config, events: seq<Event>, time: u64) returns (longer: seq<Event>)
    requires Run(config, INITIAL, events).st.now <= time
    ensures
      var m := Run(config, INITIAL, events);
      Run(config, INITIAL, longer) == m.(st := m.st.(now := time))
  {
    longer := events + [Clock(time)];
    RunStep(config, INITIAL, events, Clock(time));
    hide Run;
  }

  /** A request takes a step. */
  lemma Advances(config: Config, events: seq<Event>, k: nat) returns (longer: seq<Event>)
    requires k < |Run(config, INITIAL, events).flights|
    ensures
      var m, after := Run(config, INITIAL, events), Run(config, INITIAL, longer);
      var (phase, st) := Next(config, m.st, m.flights[k]);
      after.st == st && after.flights == m.flights[k := m.flights[k].(phase := phase)]
  {
    longer := events + [Advance(k)];
    RunStep(config, INITIAL, events, Advance(k));
    hide Run, Next, HandedOver;
  }

  lemma Arrives(config: Config, events: seq<Event>, req: Request) returns (longer: seq<Event>)
    ensures
      var m, after := Run(config, INITIAL, events), Run(config, INITIAL, longer);
      after.st == m.st && after.flights == m.flights + [Flight(req, Consume, "", Started)]
  {
    longer := events + [Arrive(req, Consume, "")];
    RunStep(config, INITIAL, events, Arrive(req, Consume, ""));
    hide Run;
  }

  /** One more request arrives and takes its first step inside the window. */
  lemma ArriveAndCheck(config: Config, events: seq<Event>, req: Request) returns (longer: seq<Event>)
    requires Admission(config, req).Ok? && InWindow(config, Run(config, INITIAL, events).st.now, Admission(config, req).value)
    ensures
      var m, after := Run(config, INITIAL, events), Run(config, INITIAL, longer);
      && after.st == m.st
      && after.flights == m.flights + [Flight(req, Consume, "", Windowed(Admission(config, req).value, m.st.now))]
  {
    hide Run, Admission, CheckTimeWindow, InWindow, Dispatch;
    var m := Run(config, INITIAL, events);
    WindowIff(config, m.st.now, Admission(config, req).value);
    longer := Arrives(config, events, req);
    longer := Advances(config, longer, |m.flights|);
  }

  /** It passes the nonce check, its nonce being unknown or expired. */
  lemma PassNonce(config: Config, events: seq<Event>, k: nat, req: Request, auth: Authorization, seenAt: u64)
    returns (longer: seq<Event>)
    requires k < |Run(config, INITIAL, events).flights|
    requires
      var m := Run(config, INITIAL, events);
      && m.flights[k] == Flight(req, Consume, "", Windowed(auth, seenAt))
      && !Remembered(config, m.st.now, m.st.cache, auth.nonce)
    ensures
      var m, after := Run(config, INITIAL, events), Run(config, INITIAL, longer);
      && after.st == m.st.(cache := m.st.cache[ReplayKey(auth.nonce) := m.st.now])
      && after.flights == m.flights[k := Flight(req, Consume, "", Passed(auth, seenAt, m.st.now))]
  {
    hide Run, Admission, Dispatch, Remembered, ReplayKey;
    longer := Advances(config, events, k);
  }

  /** And it is accepted. */
  lemma PassAndAccept(config: Config, events: seq<Event>, k: nat, req: Request, seenAt: u64) returns (longer: seq<Event>)
    requires Acceptable(config, req) && k < |Run(config, INITIAL, events).flights|
    requires
      var m := Run(config, INITIAL, events);
      && m.flights[k] == Flight(req, Consume, "", Windowed(Admission(config, req).value, seenAt))
      && !Remembered(config, m.st.now, m.st.cache, Admission(config, req).value.nonce)
    ensures
      var m, after := Run(config, INITIAL, events), Run(config, INITIAL, longer);
      && after.st == m.st.(cache := m.st.cache[ReplayKey(Admission(config, req).value.nonce) := m.st.now])
      && after.flights == m.flights[k := Flight(req, Consume, "", Valid(Admission(config, req).value, seenAt, m.st.now))]
  {
    hide Run, Admission, Dispatch, Remembered, ReplayKey;
    longer := PassNonce(config, events, k, req, Admission(config, req).value, seenAt);
    longer := Advances(config, longer, k);
  }

  lemma RoomMakesTwice(config: Config, same: Claim, req: Request, lag: nat) returns (events: seq<Event>)
    requires Acceptable(config, req) && same(Admission(config, req).value)
    requires RoomForTwo(config, Admission(config, req).value, lag)
    ensures AcceptedTwice(config, same, lag, events)
  {
    var auth := Admission(config, req).value;
    var opens: u64 := Opens(config, auth);
    var second: u64 := opens + config.ttl;
    var seenAt: u64 := if second <= Closes(config, auth) then second else Closes(config, auth);
    WindowIsInterval(config, opens, auth);
    WindowIsInterval(config, seenAt, auth);
    assert Run(config, INITIAL, []) == INITIAL;
    hide Run, Opens, Closes, InWindow, Acceptable, Admission, RoomForTwo;
    events := Wait(config, [], opens);
    events := ArriveAndCheck(config, events, req);
    events := PassAndAccept(config, events, 0, req, opens);
    events := Wait(config, events, seenAt);
    events := ArriveAndCheck(config, events, req);
    events := Wait(config, events, second);
    events := PassAndAccept(config, events, 1, req, seenAt);
    var fs := Run(config, INITIAL, events).flights;
    assert VerifiedWithin(fs[0], same, lag) && VerifiedWithin(fs[1], same, lag);
  }

  /** For every claim with one nonce and one window. */
  lemma ClaimTwiceIff(config: Config, same: Claim, req: Request, lag: nat)
    requires Acceptable(config, req) && FixesTerms(same, Admission(config, req).value)
    ensures (exists events :: AcceptedTwice(config, same, lag, events)) <==>
            RoomForTwo(config, Admission(config, req).value, lag)
  {
    var auth := Admission(config, req).value;
    if RoomForTwo(config, auth, lag) {
      var events := RoomMakesTwice(config, same, req, lag);
    }
    if events :| AcceptedTwice(config, same, lag, events) {
      TwiceNeedsRoom(config, same, auth, lag, events);
    }
  }

  // ---------------------------------------------------------------------------
  // At most once
  // ---------------------------------------------------------------------------

  /**
   At most once, exactly: with at most `lag` between the two clock readings, what one
   signature covers, plainly written, can be accepted twice in some run if and only if
   its tolerated window, stretched by the lag, is at least as long as the nonce's
   lifetime.
   */
  lemma TwiceIff(config: Config, tip5: Tip5, req: Request, lag: nat)
    requires Acceptable(config, req)
    requires Plain(Admission(config, req).value) && MessageBelts(tip5, Admission(config, req).value).Ok?
    ensures (exists events :: AcceptedTwice(config, PlainSpellings(tip5, Admission(config, req).value), lag, events)) <==>
            RoomForTwo(config, Admission(config, req).value, lag)
  {
    var auth := Admission(config, req).value;
    hide Admission, MessageBelts, Plain, AcceptedTwice, RoomForTwo, FixesTerms, PlainSpellings;
    PlainFixesTerms(tip5, auth);
    ClaimTwiceIff(config, PlainSpellings(tip5, auth), req, lag);
  }

  /** The same for an authorization exactly as written, plain or not. */
  lemma VerbatimTwiceIff(config: Config, req: Request, lag: nat)
    requires Acceptable(config, req)
    ensures (exists events :: AcceptedTwice(config, Verbatim(Admission(config, req).value), lag, events)) <==>
            RoomForTwo(config, Admission(config, req).value, lag)
  {
    VerbatimFixesTerms(Admission(config, req).value);
    ClaimTwiceIff(config, Verbatim(Admission(config, req).value), req, lag);
  }

  /**
   When both checks read one instant: a lifetime above the window plus twice the skew
   is enough, for the authorization as written and for all that its signature covers in
   plain writing.
   */
  lemma AtMostOnce(config: Config, tip5: Tip5, auth: Authorization, events: seq<Event>)
    requires config.ttl > auth.validBefore - auth.validAfter + 2 * config.skew
    ensures !AcceptedTwice(config, Verbatim(auth), 0, events)
    ensures Plain(auth) && MessageBelts(tip5, auth).Ok? ==> !AcceptedTwice(config, PlainSpellings(tip5, auth), 0, events)
  {
    hide AcceptedTwice, Plain, MessageBelts, PlainSpellings, FixesTerms, Verbatim;
    VerbatimFixesTerms(auth);
    if AcceptedTwice(config, Verbatim(auth), 0, events) {
      TwiceNeedsRoom(config, Verbatim(auth), auth, 0, events);
    }
    if Plain(auth) && MessageBelts(tip5, auth).Ok? && AcceptedTwice(config, PlainSpellings(tip5, auth), 0, events) {
      PlainFixesTerms(tip5, auth);
      TwiceNeedsRoom(config, PlainSpellings(tip5, auth), auth, 0, events);
    }
  }

  /** The default settings, a skew of 60 and a lifetime of 900 seconds, protect every authorization window shorter than 780 seconds. */
  lemma DefaultSettingsProtect(config: Config, tip5: Tip5, auth: Authorization, events: seq<Event>)
    requires config.skew == 60 && config.ttl == 900
    requires auth.validBefore - auth.validAfter < 780
    ensures !AcceptedTwice(config, Verbatim(auth), 0, events)
    ensures Plain(auth) && MessageBelts(tip5, auth).Ok? ==> !AcceptedTwice(config, PlainSpellings(tip5, auth), 0, events)
  {
    hide AcceptedTwice, Plain, MessageBelts, PlainSpellings, Verbatim;
    AtMostOnce(config, tip5, auth, events);
  }

  /**
   A lifetime of the window plus one skew is not enough, for any skew: the same
   authorization can still be accepted twice.
   */
  lemma WindowPlusSkewIsNotEnough(config: Config, req: Request)
    requires Acceptable(config, req)
    requires
      var auth := Admission(config, req).value;
      && config.skew <= auth.validAfter <= auth.validBefore && auth.validBefore + config.skew <= U64_MAX
      && config.ttl == auth.validBefore - auth.validAfter + config.skew
    ensures exists events :: AcceptedTwice(config, Verbatim(Admission(config, req).value), 0, events)
  {
    hide Admission, Acceptable, AcceptedTwice, Verbatim;
    VerbatimTwiceIff(config, req, 0);
  }

  // ---------------------------------------------------------------------------
  // A nonce is taken before its signature is looked at
  // ---------------------------------------------------------------------------

  function WithSignature(req: Request, signature: SignatureJson): Request
    requires req.payload.payload.Decoded?
  {
    req.(payload := req.payload.(payload := Decoded(req.payload.payload.exact.(signature := signature))))
  }

  /** The default registry admits a request whatever its signature is. */
  lemma AdmissionIgnoresSignature(
    config: Config, schnorr: Schnorr, tip5: Tip5, req: Request, signature: SignatureJson)
    requires config.handlers == DefaultHandlers(schnorr, tip5) && req.payload.payload.Decoded?
    ensures Admission(config, WithSignature(req, signature)) == Admission(config, req)
  {
    DefaultResolves(schnorr, tip5, req.requirements.scheme, req.requirements.network);
    hide HandlerFor, DefaultHandlers, NockchainVerify;
  }

  /**
   In every run, while a request would be accepted, a copy of it under any signature at
   all can pass first. From then on the request is accepted exactly once the lifetime of
   the nonce is over, if its window is still open.
   */
  lemma NonceTakenByCopy(
    config: Config, schnorr: Schnorr, tip5: Tip5, events: seq<Event>, req: Request, signature: SignatureJson)
    returns (longer: seq<Event>)
    requires config.handlers == DefaultHandlers(schnorr, tip5) && req.payload.payload.Decoded?
    requires CheckEnvelope(config, Run(config, INITIAL, events).st, req, Consume).0.Ok?
    ensures Admission(config, req).Ok?
    ensures
      var m, after := Run(config, INITIAL, events), Run(config, INITIAL, longer);
      && after.st.now == m.st.now
      && |after.flights| == |m.flights| + 1 && after.flights[..|m.flights|] == m.flights
      && after.flights[|m.flights|].req == WithSignature(req, signature)
      && forall later: u64 :: m.st.now <= later ==>
           (CheckEnvelope(config, after.st.(now := later), req, Consume).0.Ok? <==>
            m.st.now + config.ttl <= later && InWindow(config, later, Admission(config, req).value))
  {
    hide Run, Admission, Dispatch, CheckEnvelope, InWindow, DefaultHandlers;
    var m := Run(config, INITIAL, events);
    EnvelopeAcceptsIff(config, m.st, req, Consume);
    AdmissionIgnoresSignature(config, schnorr, tip5, req, signature);
    var copy, auth := WithSignature(req, signature), Admission(config, req).value;
    longer := ArriveAndCheck(config, events, copy);
    longer := PassNonce(config, longer, |m.flights|, copy, auth, m.st.now);
    var after := Run(config, INITIAL, longer);
    forall later: u64 | m.st.now <= later
      ensures CheckEnvelope(config, after.st.(now := later), req, Consume).0.Ok? <==>
              m.st.now + config.ttl <= later && InWindow(config, later, auth)
    {
      EnvelopeAcceptsIff(config, after.st.(now := later), req, Consume);
    }
  }
}
