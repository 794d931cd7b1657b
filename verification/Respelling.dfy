/**
 One signature covers more than one way of writing an authorization: a nonce with
 further leading '1's, and times further by PRIME. The facilitator keys its cache on
 the nonce as written and reads the times as written, so this says exactly what a
 signature is good for when its authorization may be rewritten.
 */
module Respelling {
  import opened Alphabet
  import opened Base58
  import opened Crypto
  import opened Decimal
  import opened Envelope
  import opened Facilitator
  import opened HashText
  import Notes
  import opened Payment
  import opened Positional
  import opened Replay
  import opened Runs
  import opened Scheme
  import opened SignMessage
  import opened Wrappers

  // ---------------------------------------------------------------------------
  // Other spellings of one message
  // ---------------------------------------------------------------------------

  function Ones(k: nat): (s: string)
    ensures |s| == k
  {
    seq(k, _ => '1')
  }

  function Respelt(auth: Authorization, k: nat, after: u64, before: u64): Authorization {
    auth.(nonce := Ones(k) + auth.nonce, validAfter := after, validBefore := before)
  }

  lemma OnesDenoteNothing(s: string, k: nat)
    ensures IntegerOf(Ones(k) + s) == IntegerOf(s)
  {
    var t := Ones(k) + s;
    assert forall i :: 0 <= i < |t| ==> t[i] == if i < k then '1' else s[i - k];
    assert forall i :: 0 <= i < |s| ==> s[i] == t[i + k];
    assert Base58.Digit('1') == Some(0);
    if Read(s, Base58.Digit).Some? {
      var ds := Read(s, Base58.Digit).value;
      assert Read(t, Base58.Digit).value == Zeros(k) + ds;
      BigEndianZeros(k, ds, 58);
    }
  }

  /** Leading '1's change nothing about what a text decodes to, errors included. */
  lemma OnesDecodeAlike(s: string, k: nat, field: string)
    ensures DecodeHash(Ones(k) + s, field) == DecodeHash(s, field)
  {
    OnesDenoteNothing(s, k);
    DecodedInteger(s);
    DecodedInteger(Ones(k) + s);
    hide IntegerOf, Base58.Decode, FromBytes, FiveDigits;
  }

  /** Every respelling of the nonce and the times is signed as the same Belts. */
  lemma RespeltIsSameSigned(tip5: Tip5, auth: Authorization, k: nat, after: u64, before: u64)
    requires U64ToBelt(after) == U64ToBelt(auth.validAfter) && U64ToBelt(before) == U64ToBelt(auth.validBefore)
    ensures MessageBelts(tip5, Respelt(auth, k, after, before)) == MessageBelts(tip5, auth)
    ensures MessageDigest(tip5, Respelt(auth, k, after, before)) == MessageDigest(tip5, auth)
  {
    OnesDecodeAlike(auth.nonce, k, "nonce");
    hide DecodeHash, DecimalToBelt, Notes.NotesHash, Layout, U64ToBelt;
  }

  function WithAuthorization(req: Request, auth: Authorization): Request
    requires req.payload.payload.Decoded?
  {
    req.(payload := req.payload.(payload := Decoded(req.payload.payload.exact.(authorization := auth))))
  }

  /** What the default handlers accept, they accept under every respelling, with the same signature. */
  lemma RespeltIsAcceptable(
    config: Config, schnorr: Schnorr, tip5: Tip5, req: Request, k: nat, after: u64, before: u64)
    requires config.handlers == DefaultHandlers(schnorr, tip5) && Acceptable(config, req)
    requires
      var auth := Admission(config, req).value;
      U64ToBelt(after) == U64ToBelt(auth.validAfter) && U64ToBelt(before) == U64ToBelt(auth.validBefore)
    ensures req.payload.payload.Decoded? && Admission(config, req) == Ok(req.payload.payload.exact.authorization)
    ensures MessageBelts(tip5, Admission(config, req).value).Ok?
    ensures
      var other := Respelt(Admission(config, req).value, k, after, before);
      Acceptable(config, WithAuthorization(req, other)) && Admission(config, WithAuthorization(req, other)) == Ok(other)
  {
    DefaultVerdict(config, schnorr, tip5, req);
    var auth := req.payload.payload.exact.authorization;
    var other := Respelt(auth, k, after, before);
    RespeltIsSameSigned(tip5, auth, k, after, before);
    DefaultVerdict(config, schnorr, tip5, WithAuthorization(req, other));
    hide Acceptable, Admission, Dispatch, MessageBelts, ParseUnsigned, U64ToBelt, PkhFromPubkeyBytes;
  }

  // ---------------------------------------------------------------------------
  // One request, accepted and presented again
  // ---------------------------------------------------------------------------

  /**
   Right after a request is accepted, the same signature under a nonce with further
   leading '1's is accepted too, at the same instant and for every lifetime, unless
   that very text is remembered.
   */
  lemma RespeltNonceIsFresh(config: Config, schnorr: Schnorr, tip5: Tip5, st: State, req: Request, k: nat)
    requires config.handlers == DefaultHandlers(schnorr, tip5) && k > 0
    requires CheckEnvelope(config, st, req, Consume).0.Ok?
    ensures req.payload.payload.Decoded?
    ensures
      var auth := req.payload.payload.exact.authorization;
      var other := Respelt(auth, k, auth.validAfter, auth.validBefore);
      && SameSigned(tip5, other, auth)
      && (CheckEnvelope(config, CheckEnvelope(config, st, req, Consume).1, WithAuthorization(req, other), Consume).0.Ok? <==>
          !Remembered(config, st.now, st.cache, other.nonce))
  {
    EnvelopeAcceptsIff(config, st, req, Consume);
    EnvelopeRecordsIff(config, st, req, Consume);
    var auth := Admission(config, req).value;
    RespeltIsAcceptable(config, schnorr, tip5, req, k, auth.validAfter, auth.validBefore);
    RespeltIsSameSigned(tip5, auth, k, auth.validAfter, auth.validBefore);
    var other := Respelt(auth, k, auth.validAfter, auth.validBefore);
    EnvelopeAcceptsIff(config, CheckEnvelope(config, st, req, Consume).1, WithAuthorization(req, other), Consume);
    KeysDiffer(auth.nonce, other.nonce);
    hide CheckEnvelope, Admission, Dispatch, MessageBelts, ReplayKey, DefaultHandlers;
  }

  /**
   The signed window does not close when its end has a second reading in the field:
   with PRIME added to its end, the request passes at every later clock up to there, on
   `/settle` unconditionally and on `/verify` once its nonce is not remembered.
   */
  lemma RaisedEndStaysOpen(
    config: Config, schnorr: Schnorr, tip5: Tip5, st: State, req: Request, mode: ReplayMode, later: State, laterMode: ReplayMode)
    requires config.handlers == DefaultHandlers(schnorr, tip5)
    requires CheckEnvelope(config, st, req, mode).0.Ok? && st.now <= later.now
    requires req.payload.payload.Decoded? ==> req.payload.payload.exact.authorization.validBefore + PRIME <= U64_MAX
    ensures req.payload.payload.Decoded?
    ensures
      var auth := req.payload.payload.exact.authorization;
      var other := auth.(validBefore := auth.validBefore + PRIME);
      && SameSigned(tip5, other, auth)
      && (CheckEnvelope(config, later, WithAuthorization(req, other), laterMode).0.Ok? <==>
          && later.now <= auth.validBefore + PRIME + config.skew
          && (laterMode.Consume? ==> !Remembered(config, later.now, later.cache, auth.nonce)))
  {
    hide CheckEnvelope, Admission, Dispatch, SameSigned, Remembered, DefaultHandlers;
    EnvelopeAcceptsIff(config, st, req, mode);
    RaisedIsAcceptable(config, schnorr, tip5, req);
    var auth := req.payload.payload.exact.authorization;
    var other := auth.(validBefore := auth.validBefore + PRIME);
    EnvelopeAcceptsIff(config, later, WithAuthorization(req, other), laterMode);
  }

  lemma RaisedIsAcceptable(config: Config, schnorr: Schnorr, tip5: Tip5, req: Request)
    requires config.handlers == DefaultHandlers(schnorr, tip5) && Acceptable(config, req)
    requires req.payload.payload.Decoded? ==> req.payload.payload.exact.authorization.validBefore + PRIME <= U64_MAX
    ensures req.payload.payload.Decoded? && Admission(config, req) == Ok(req.payload.payload.exact.authorization)
    ensures
      var auth := req.payload.payload.exact.authorization;
      var other := auth.(validBefore := auth.validBefore + PRIME);
      && SameSigned(tip5, other, auth)
      && Acceptable(config, WithAuthorization(req, other)) && Admission(config, WithAuthorization(req, other)) == Ok(other)
  {
    hide *;
    DefaultVerdict(config, schnorr, tip5, req);
    var auth := req.payload.payload.exact.authorization;
    RaisedEnd(tip5, auth);
    RespeltIsAcceptable(config, schnorr, tip5, req, 0, auth.validAfter, auth.validBefore + PRIME);
    RespeltIsSameSigned(tip5, auth, 0, auth.validAfter, auth.validBefore + PRIME);
    BeltsAgree(tip5, auth.(validBefore := auth.validBefore + PRIME), auth);
  }

  lemma BeltsAgree(tip5: Tip5, a: Authorization, b: Authorization)
    requires MessageBelts(tip5, a) == MessageBelts(tip5, b) && MessageBelts(tip5, b).Ok?
    ensures SameSigned(tip5, a, b)
  {
    hide MessageBelts;
  }

  lemma RaisedEnd(tip5: Tip5, auth: Authorization)
    requires auth.validBefore + PRIME <= U64_MAX
    ensures Respelt(auth, 0, auth.validAfter, auth.validBefore + PRIME) == auth.(validBefore := auth.validBefore + PRIME)
    ensures U64ToBelt(auth.validBefore + PRIME) == U64ToBelt(auth.validBefore)
  {
    assert Ones(0) + auth.nonce == auth.nonce;
  }

  // ---------------------------------------------------------------------------
  // Over runs
  // ---------------------------------------------------------------------------

  /** Some further leading '1's give a replay key that the cache does not hold. */
  lemma FreshSpelling(cache: Cache, nonce: string) returns (k: nat)
    ensures k > 0 && ReplayKey(Ones(k) + nonce) !in cache
  {
    k := LongerThan(cache.Keys);
    assert |ReplayKey(Ones(k) + nonce)| > k;
  }

  lemma {:induction false} LongerThan(keys: set<string>) returns (n: nat)
    ensures n > 0 && forall s :: s in keys ==> |s| <= n
    decreases |keys|
  {
    if keys == {} {
      n := 1;
    } else {
      var s :| s in keys;
      n := LongerThan(keys - {s});
      if n < |s| {
        n := |s|;
      }
    }
  }

  /**
   In every run, while the window of an accepted request is open, its signature can be
   accepted once more at that instant, whatever the lifetime of a nonce.
   */
  lemma AcceptedAgain(config: Config, schnorr: Schnorr, tip5: Tip5, events: seq<Event>, i: nat)
    returns (longer: seq<Event>)
    requires config.handlers == DefaultHandlers(schnorr, tip5)
    requires i < |Run(config, INITIAL, events).flights|
    requires
      var m := Run(config, INITIAL, events);
      m.flights[i].phase.Accepted() && InWindow(config, m.st.now, m.flights[i].phase.auth)
    ensures
      var m, after := Run(config, INITIAL, events), Run(config, INITIAL, longer);
      && after.st.now == m.st.now
      && |after.flights| == |m.flights| + 1 && after.flights[..|m.flights|] == m.flights
      && VerifiedWithin(after.flights[|m.flights|], AnySpelling(tip5, m.flights[i].phase.auth), 0)
      && after.flights[|m.flights|].phase.passedAt == m.st.now
      && after.flights[|m.flights|].phase.auth != m.flights[i].phase.auth
  {
    var m := Run(config, INITIAL, events);
    InitialOk(config);
    RunKeeps(config, INITIAL, events);
    assert FlightOk(config, m.st.now, m.flights[i]);
    longer := RespellAndAccept(config, schnorr, tip5, events, m.flights[i].req);
  }

  lemma RespellAndAccept(config: Config, schnorr: Schnorr, tip5: Tip5, events: seq<Event>, req: Request)
    returns (longer: seq<Event>)
    requires config.handlers == DefaultHandlers(schnorr, tip5) && Acceptable(config, req)
    requires InWindow(config, Run(config, INITIAL, events).st.now, Admission(config, req).value)
    ensures
      var m, after := Run(config, INITIAL, events), Run(config, INITIAL, longer);
      && after.st.now == m.st.now
      && |after.flights| == |m.flights| + 1 && after.flights[..|m.flights|] == m.flights
      && VerifiedWithin(after.flights[|m.flights|], AnySpelling(tip5, Admission(config, req).value), 0)
      && after.flights[|m.flights|].phase.passedAt == m.st.now
      && after.flights[|m.flights|].phase.auth != Admission(config, req).value
  {
    var m := Run(config, INITIAL, events);
    var auth := Admission(config, req).value;
    var k := FreshSpelling(m.st.cache, auth.nonce);
    var other := Respelt(auth, k, auth.validAfter, auth.validBefore);
    RespeltIsAcceptable(config, schnorr, tip5, req, k, auth.validAfter, auth.validBefore);
    RespeltIsSameSigned(tip5, auth, k, auth.validAfter, auth.validBefore);
    assert |other.nonce| > |auth.nonce|;
    hide Run, Admission, Acceptable, MessageBelts, DefaultHandlers, ReplayKey;
    longer := ArriveAndCheck(config, events, WithAuthorization(req, other));
    longer := PassAndAccept(config, longer, |m.flights|, WithAuthorization(req, other), m.st.now);
  }

  /** The first and the last reading of a time that is signed as one field element. */
  function Earliest(v: u64): u64 {
    v % PRIME
  }

  function Latest(v: u64): u64 {
    if v % PRIME + PRIME <= U64_MAX then v % PRIME + PRIME else v % PRIME
  }

  lemma ReadingsOf(v: u64, w: u64)
    ensures U64ToBelt(Earliest(v)) == U64ToBelt(v) == U64ToBelt(Latest(v))
    ensures U64ToBelt(w) == U64ToBelt(v) ==> Earliest(v) <= w <= Latest(v)
  {
  }

  /** The authorization with the widest window that its signature covers. */
  function Widest(auth: Authorization): Authorization {
    auth.(validAfter := Earliest(auth.validAfter), validBefore := Latest(auth.validBefore))
  }

  /** The window is open at some clock, in its widest reading. */
  predicate EverOpen(config: Config, auth: Authorization) {
    Opens(config, Widest(auth)) <= Closes(config, Widest(auth))
  }

  /** In this run the claim is accepted twice at one instant. */
  ghost predicate TwiceAtOnce(config: Config, same: Claim, events: seq<Event>) {
    var fs := Run(config, INITIAL, events).flights;
    exists i, j :: 0 <= i < |fs| && 0 <= j < |fs| && i != j
      && VerifiedWithin(fs[i], same, 0) && VerifiedWithin(fs[j], same, 0)
      && fs[i].phase.passedAt == fs[j].phase.passedAt
  }

  lemma TwiceNeedsOpen(config: Config, tip5: Tip5, auth: Authorization, lag: nat, events: seq<Event>)
    requires AcceptedTwice(config, AnySpelling(tip5, auth), lag, events)
    ensures EverOpen(config, auth)
  {
    hide Run, Acceptable, Admission, MessageBelts, StripOnes, DecimalToBelt, Notes.NotesHash;
    var fs := Run(config, INITIAL, events).flights;
    var i :| 0 <= i < |fs| && VerifiedWithin(fs[i], AnySpelling(tip5, auth), lag);
    AcceptedInWindow(config, events, i);
    var a := fs[i].phase.auth;
    SameBeltsSamePayment(tip5, a, auth);
    ReadingsOf(auth.validAfter, a.validAfter);
    ReadingsOf(auth.validBefore, a.validBefore);
    hide Earliest, Latest, U64ToBelt;
  }

  lemma OpenMakesTwice(config: Config, schnorr: Schnorr, tip5: Tip5, req: Request) returns (events: seq<Event>)
    requires config.handlers == DefaultHandlers(schnorr, tip5) && Acceptable(config, req)
    requires EverOpen(config, Admission(config, req).value)
    ensures TwiceAtOnce(config, AnySpelling(tip5, Admission(config, req).value), events)
  {
    var auth := Admission(config, req).value;
    var wide := WidestIsAcceptable(config, schnorr, tip5, req);
    var opens: u64 := Opens(config, Widest(auth));
    WindowIsInterval(config, opens, Widest(auth));
    assert Run(config, INITIAL, []) == INITIAL;
    hide Run, Opens, Closes, InWindow, Acceptable, Admission, EverOpen, SameSigned, DefaultHandlers, Widest, Remembered;
    NothingRemembered(config, opens, Widest(auth).nonce);
    events := Wait(config, [], opens);
    events := ArriveAndCheck(config, events, wide);
    events := PassAndAccept(config, events, 0, wide, opens);
    events := RespellAndAccept(config, schnorr, tip5, events, wide);
    var fs := Run(config, INITIAL, events).flights;
    assert fs[0] == fs[..1][0];
    SameSignedChains(tip5, fs[1].phase.auth, Widest(auth), auth);
    assert VerifiedWithin(fs[0], AnySpelling(tip5, auth), 0) && VerifiedWithin(fs[1], AnySpelling(tip5, auth), 0);
  }

  lemma NothingRemembered(config: Config, now: u64, nonce: string)
    ensures !Remembered(config, now, map[], nonce)
  {
  }

  lemma SameSignedChains(tip5: Tip5, a: Authorization, b: Authorization, c: Authorization)
    requires SameSigned(tip5, a, b) && SameSigned(tip5, b, c)
    ensures SameSigned(tip5, a, c)
  {
    hide MessageBelts;
  }

  lemma WidestIsAcceptable(config: Config, schnorr: Schnorr, tip5: Tip5, req: Request) returns (wide: Request)
    requires config.handlers == DefaultHandlers(schnorr, tip5) && Acceptable(config, req)
    ensures
      var auth := Admission(config, req).value;
      Acceptable(config, wide) && Admission(config, wide) == Ok(Widest(auth)) && SameSigned(tip5, Widest(auth), auth)
  {
    var auth := Admission(config, req).value;
    ReadingsOf(auth.validAfter, auth.validAfter);
    ReadingsOf(auth.validBefore, auth.validBefore);
    RespeltIsAcceptable(config, schnorr, tip5, req, 0, Earliest(auth.validAfter), Latest(auth.validBefore));
    RespeltIsSameSigned(tip5, auth, 0, Earliest(auth.validAfter), Latest(auth.validBefore));
    assert Ones(0) + auth.nonce == auth.nonce;
    hide Admission, Acceptable, MessageBelts, Earliest, Latest, DefaultHandlers;
    wide := WithAuthorization(req, Widest(auth));
  }

  /**
   All that a signature covers, written in any way, exactly: it can be accepted twice in
   some run, and then also twice at one instant, if and only if its window is ever open.
   No lifetime of a nonce makes a difference.
   */
  lemma AnySpellingTwiceIff(config: Config, schnorr: Schnorr, tip5: Tip5, req: Request, lag: nat)
    requires config.handlers == DefaultHandlers(schnorr, tip5) && Acceptable(config, req)
    ensures (exists events :: AcceptedTwice(config, AnySpelling(tip5, Admission(config, req).value), lag, events)) <==>
            EverOpen(config, Admission(config, req).value)
    ensures (exists events :: TwiceAtOnce(config, AnySpelling(tip5, Admission(config, req).value), events)) <==>
            EverOpen(config, Admission(config, req).value)
  {
    var auth := Admission(config, req).value;
    hide Admission, Acceptable, DefaultHandlers, EverOpen, AnySpelling, Run;
    if EverOpen(config, auth) {
      var events := OpenMakesTwice(config, schnorr, tip5, req);
      assert AcceptedTwice(config, AnySpelling(tip5, auth), lag, events);
    }
    if events :| AcceptedTwice(config, AnySpelling(tip5, auth), lag, events) {
      TwiceNeedsOpen(config, tip5, auth, lag, events);
    }
    if events :| TwiceAtOnce(config, AnySpelling(tip5, auth), events) {
      assert AcceptedTwice(config, AnySpelling(tip5, auth), 0, events);
      TwiceNeedsOpen(config, tip5, auth, 0, events);
    }
  }

  /** Whatever is accepted in some run is accepted twice at one instant in another. */
  lemma EveryAcceptanceRepeats(config: Config, schnorr: Schnorr, tip5: Tip5, events: seq<Event>, i: nat)
    requires config.handlers == DefaultHandlers(schnorr, tip5)
    requires i < |Run(config, INITIAL, events).flights| && Run(config, INITIAL, events).flights[i].phase.Accepted()
    ensures
      var auth := Run(config, INITIAL, events).flights[i].phase.auth;
      exists others :: TwiceAtOnce(config, AnySpelling(tip5, auth), others)
  {
    hide Run, Acceptable, Admission, DefaultHandlers, TwiceAtOnce;
    AcceptedInWindow(config, events, i);
    var f := Run(config, INITIAL, events).flights[i];
    ReadingsOf(f.phase.auth.validAfter, f.phase.auth.validAfter);
    ReadingsOf(f.phase.auth.validBefore, f.phase.auth.validBefore);
    hide Earliest, Latest;
    assert EverOpen(config, f.phase.auth);
    var others := OpenMakesTwice(config, schnorr, tip5, f.req);
  }
}
