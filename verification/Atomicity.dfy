/**
 From interleaved steps back to the endpoints: an undisturbed request behaves as the
 endpoint does, the catalog is the log of the requests that finished, and a request
 verified once can be settled for as long as its window is open.
 */
module Atomicity {
  import opened Catalog
  import opened Chain
  import opened Envelope
  import opened Facilitator
  import opened Runs
  import opened Scheme
  import opened Settlement
  import opened Wrappers

  // ---------------------------------------------------------------------------
  // An undisturbed request
  // ---------------------------------------------------------------------------

  /** A request that arrives and takes its steps with nothing in between; the last is idle for `/verify`. */
  function Burst(id: nat, req: Request, mode: ReplayMode, stamp: string): seq<Event> {
    [Arrive(req, mode, stamp), Advance(id), Advance(id), Advance(id), Advance(id), Advance(id)]
  }

  /** Where five steps take a request, and the phase before the last. */
  function FiveSteps(config: Config, st: State, f: Flight): (Phase, Phase, State) {
    var (p1, s1) := Next(config, st, f);
    var (p2, s2) := Next(config, s1, f.(phase := p1));
    var (p3, s3) := Next(config, s2, f.(phase := p2));
    var (p4, s4) := Next(config, s3, f.(phase := p3));
    var (p5, s5) := Next(config, s4, f.(phase := p4));
    (p4, p5, s5)
  }

  function EnvelopeThenCatalog(config: Config, st: State, req: Request, mode: ReplayMode, stamp: string)
    : (Result<(), VerifyError>, State)
  {
    var (result, checked) := CheckEnvelope(config, st, req, mode);
    if result.Err? then (result, checked) else (result, Process(config, checked, req, stamp).1)
  }

  /** Where a request ends up tells how its envelope check came out. */
  predicate Tells(mode: ReplayMode, phase: Phase, result: Result<(), VerifyError>) {
    match result
    case Ok(_) => if mode.Skip? then phase.Settled? else phase.Finished?
    case Err(e) => (phase.Turned? || phase.Failed?) && phase.error == e
  }

  lemma FiveStepsAre(config: Config, st: State, req: Request, mode: ReplayMode, stamp: string)
    ensures
      var (fourth, fifth, after) := FiveSteps(config, st, Flight(req, mode, stamp, Started));
      var (result, expected) := EnvelopeThenCatalog(config, st, req, mode, stamp);
      && after == expected && Tells(mode, fifth, result)
      && !(mode.Consume? && fourth.Settled?) && (fourth.Finished? <==> result.Ok?)
  {
    hide Admission, Dispatch, CheckTimeWindow, CheckReplay, Process;
  }

  /** What a reply of `/settle` says of the envelope. */
  function EnvelopePart(body: Result<ChainSettle, SettleError>): Result<(), VerifyError> {
    if body.Err? && body.error.BadEnvelope? then Err(body.error.error) else Ok(())
  }

  /** What an undisturbed request hands to the node. */
  function Handed(config: Config, st: State, req: Request, mode: ReplayMode): seq<RawTx> {
    if mode.Skip? then Submitted(config, st, req) else []
  }

  /** The steps of one request, taken without interruption, are the endpoint. */
  lemma BurstIsEndpoint(config: Config, m: Machine, req: Request, mode: ReplayMode, stamp: string)
    ensures
      var after := Run(config, m, Burst(|m.flights|, req, mode, stamp));
      var (result, expected) := EnvelopeThenCatalog(config, m.st, req, mode, stamp);
      && after.st == expected
      && |after.flights| == |m.flights| + 1 && after.flights[..|m.flights|] == m.flights
      && Tells(mode, after.flights[|m.flights|].phase, result)
      && after.submitted == m.submitted + Handed(config, m.st, req, mode)
    ensures mode.Consume? ==>
              var after, (reply, st) := Run(config, m, Burst(|m.flights|, req, mode, stamp)), HandleVerify(config, m.st, req, stamp);
              after.st == st && Tells(mode, after.flights[|m.flights|].phase, reply.body)
    ensures mode.Skip? ==>
              var after, (reply, st) := Run(config, m, Burst(|m.flights|, req, mode, stamp)), HandleSettle(config, m.st, req, stamp);
              after.st == st && Tells(mode, after.flights[|m.flights|].phase, EnvelopePart(reply.body))
  {
    FiveStepsAre(config, m.st, req, mode, stamp);
    BurstRuns(config, m, req, mode, stamp);
    EnvelopeAcceptsIff(config, m.st, req, mode);
    AdmittedResolves(config, req);
    hide Run, CheckEnvelope, Process, FiveSteps, Admission, Dispatch, HandlerFor, Submissions, InWindow, Remembered;
  }

  lemma BurstRuns(config: Config, m: Machine, req: Request, mode: ReplayMode, stamp: string)
    ensures
      var f := Flight(req, mode, stamp, Started);
      var (fourth, fifth, after) := FiveSteps(config, m.st, f);
      Run(config, m, Burst(|m.flights|, req, mode, stamp)) ==
      Machine(after, m.flights + [f.(phase := fifth)], m.submitted + HandedOver(config, f.(phase := fourth)))
  {
    var f := Flight(req, mode, stamp, Started);
    var e0, e := Arrive(req, mode, stamp), Advance(|m.flights|);
    RunNothing(config, m);
    RunStep(config, m, [], e0);
    assert [] + [e0] == [e0];
    assert Run(config, m, [e0]) == Machine(m.st, m.flights + [f], m.submitted);
    NothingEarlier(config, m.st, f);
    BurstSpelled(|m.flights|, req, mode, stamp);
    hide Run, Next, Step, HandedOver, Burst;
    var p1, s1 := LastAdvances(config, m, [e0], m.st, m.flights, f, m.submitted);
    var f1 := f.(phase := p1);
    var p2, s2 := LastAdvances(config, m, [e0] + [e], s1, m.flights, f1, m.submitted);
    var f2 := f.(phase := p2);
    var p3, s3 := LastAdvances(config, m, [e0] + [e] + [e], s2, m.flights, f2, m.submitted);
    var f3 := f.(phase := p3);
    var p4, s4 := LastAdvances(config, m, [e0] + [e] + [e] + [e], s3, m.flights, f3, m.submitted);
    var f4 := f.(phase := p4);
    var p5, s5 := LastAdvances(config, m, [e0] + [e] + [e] + [e] + [e], s4, m.flights, f4, m.submitted);
  }

  lemma BurstSpelled(id: nat, req: Request, mode: ReplayMode, stamp: string)
    ensures
      var e0, e := Arrive(req, mode, stamp), Advance(id);
      Burst(id, req, mode, stamp) == [e0] + [e] + [e] + [e] + [e] + [e]
  {
  }

  /** No step before the fifth hands anything over. */
  lemma NothingEarlier(config: Config, st: State, f: Flight)
    requires f.phase.Started?
    ensures
      var (p1, s1) := Next(config, st, f);
      var (p2, s2) := Next(config, s1, f.(phase := p1));
      var (p3, s3) := Next(config, s2, f.(phase := p2));
      && HandedOver(config, f) == HandedOver(config, f.(phase := p1)) == []
      && HandedOver(config, f.(phase := p2)) == HandedOver(config, f.(phase := p3)) == []
  {
    hide Admission, Dispatch, CheckTimeWindow, CheckReplay, Process;
  }

  /** The youngest request takes a step. */
  lemma LastAdvances(
    config: Config, m: Machine, events: seq<Event>, st: State, others: seq<Flight>, f: Flight, sent: seq<RawTx>)
    returns (phase: Phase, after: State)
    requires Run(config, m, events) == Machine(st, others + [f], sent)
    ensures (phase, after) == Next(config, st, f)
    ensures
      var now := Run(config, m, events + [Advance(|others|)]);
      && now == Machine(after, others + [f.(phase := phase)], sent + HandedOver(config, f))
      && (HandedOver(config, f) == [] ==> now.submitted == sent)
  {
    RunStep(config, m, events, Advance(|others|));
    hide Run, Next, HandedOver;
    var next := Next(config, st, f);
    phase, after := next.0, next.1;
    assert (others + [f])[|others| := f.(phase := phase)] == others + [f.(phase := phase)];
    assert sent + [] == sent;
  }

  lemma RunNothing(config: Config, m: Machine)
    ensures Run(config, m, []) == m
  {
  }

  // ---------------------------------------------------------------------------
  // The catalog is a log of accepted requests
  // ---------------------------------------------------------------------------

  /** The entry that an event writes: that of an accepted request taking its last step. */
  function Written(config: Config, m: Machine, e: Event): Rows {
    if e.Advance? && e.i < |m.flights| && m.flights[e.i].phase.Valid?
       && EntryFor(config, m.flights[e.i].req, m.flights[e.i].stamp).Some?
    then [EntryFor(config, m.flights[e.i].req, m.flights[e.i].stamp).value] else []
  }

  /** All the entries that a run writes, in order. */
  function Log(config: Config, events: seq<Event>): Rows {
    if events == [] then []
    else
      var before := events[..|events| - 1];
      Log(config, before) + Written(config, Run(config, INITIAL, before), events[|events| - 1])
  }

  lemma NextWrites(config: Config, st: State, f: Flight)
    ensures Next(config, st, f).1.catalog ==
            if f.phase.Valid? && EntryFor(config, f.req, f.stamp).Some?
            then Catalog.Put(st.catalog, EntryFor(config, f.req, f.stamp).value) else st.catalog
  {
    hide EntryFor, Admission, Dispatch, CheckTimeWindow, CheckReplay, Catalog.Put;
  }

  lemma StepWrites(config: Config, m: Machine, e: Event)
    ensures Step(config, m, e).st.catalog ==
            if Written(config, m, e) == [] then m.st.catalog else Catalog.Put(m.st.catalog, Written(config, m, e)[0])
  {
    hide EntryFor, Next, HandedOver, Catalog.Put;
    if e.Advance? && e.i < |m.flights| {
      NextWrites(config, m.st, m.flights[e.i]);
    }
  }

  lemma StepLogs(config: Config, log: Rows, m: Machine, e: Event)
    requires m.st.catalog == PutAll(log)
    ensures Step(config, m, e).st.catalog == PutAll(log + Written(config, m, e))
  {
    StepWrites(config, m, e);
    var written := Written(config, m, e);
    assert |written| <= 1;
    hide Step, Written;
    if written == [] {
      assert log + written == log;
    } else {
      assert log + written == log + [written[0]];
      assert (log + [written[0]])[..|log|] == log;
    }
  }

  lemma WrittenOk(config: Config, m: Machine, e: Event)
    requires FlightsOk(config, m)
    ensures forall r :: r in Written(config, m, e) ==> EntryOk(config, r)
  {
    if Written(config, m, e) != [] {
      assert FlightOk(config, m.st.now, m.flights[e.i]);
      hide Dispatch, EntryFor;
      AdmittedEntryOk(config, m.flights[e.i].req, m.flights[e.i].stamp);
    }
  }

  /**
   The catalog of every run is what the accepted requests wrote, and nothing else:
   keys in order of first writing, each with the entry written last.
   */
  lemma {:induction false} CatalogIsLog(config: Config, events: seq<Event>)
    ensures Run(config, INITIAL, events).st.catalog == PutAll(Log(config, events))
    ensures forall r :: r in Log(config, events) ==> EntryOk(config, r)
  {
    if events == [] {
    } else {
      var before, e := events[..|events| - 1], events[|events| - 1];
      var m := Run(config, INITIAL, before);
      CatalogIsLog(config, before);
      InitialOk(config);
      RunKeeps(config, INITIAL, before);
      StepLogs(config, Log(config, before), m, e);
      WrittenOk(config, m, e);
      hide EntryOk, Written, Step, FlightsOk, AllApart, CatalogOk, PutAll;
    }
  }

  /** In every reachable state the catalog is in order. */
  lemma ReachableCatalogOk(config: Config, events: seq<Event>)
    ensures CatalogOk(config, Run(config, INITIAL, events).st.catalog)
  {
    InitialOk(config);
    RunKeeps(config, INITIAL, events);
  }

  // ---------------------------------------------------------------------------
  // What reaches the node
  // ---------------------------------------------------------------------------

  /** What an event hands to the node: the transaction of an accepted `/settle` request taking its last step. */
  function Sent(config: Config, m: Machine, e: Event): seq<RawTx> {
    if e.Advance? && e.i < |m.flights| then HandedOver(config, m.flights[e.i]) else []
  }

  /** All that a run hands over, in order. */
  function SubmissionLog(config: Config, events: seq<Event>): seq<RawTx> {
    if events == [] then []
    else
      var before := events[..|events| - 1];
      SubmissionLog(config, before) + Sent(config, Run(config, INITIAL, before), events[|events| - 1])
  }

  /** The transactions of the requests that have been settled. */
  function Settlements(config: Config, flights: seq<Flight>): multiset<RawTx> {
    if flights == [] then multiset{}
    else
      Settlements(config, flights[..|flights| - 1]) + SettlementOf(config, flights[|flights| - 1])
  }

  function SettlementOf(config: Config, f: Flight): multiset<RawTx> {
    if f.phase.Settled? then multiset(Submissions(config.chain, f.req.payload.payload)) else multiset{}
  }

  lemma SettlementsLast(config: Config, before: seq<Flight>, f: Flight)
    ensures Settlements(config, before + [f]) == Settlements(config, before) + SettlementOf(config, f)
  {
    assert (before + [f])[..|before|] == before;
    hide SettlementOf;
  }

  lemma Exchange(a: multiset<RawTx>, b: multiset<RawTx>, c: multiset<RawTx>, d: multiset<RawTx>, x: multiset<RawTx>)
    requires a + b == c + d
    ensures (a + x) + b == (c + x) + d
  {
    assert (a + x) + b == (a + b) + x;
    assert (c + x) + d == (c + d) + x;
  }

  lemma {:induction false} SettlementsUpdate(config: Config, flights: seq<Flight>, i: nat, f: Flight)
    requires i < |flights|
    ensures Settlements(config, flights[i := f]) + SettlementOf(config, flights[i]) ==
            Settlements(config, flights) + SettlementOf(config, f)
  {
    hide Settlements, SettlementOf;
    var n := |flights| - 1;
    var before, last := flights[..n], flights[n];
    assert flights == before + [last];
    SettlementsLast(config, before, last);
    var of := SettlementOf(config, last);
    if i == n {
      assert flights[i := f] == before + [f];
      SettlementsLast(config, before, f);
      Exchange(Settlements(config, before), multiset{}, Settlements(config, before), multiset{}, of);
    } else {
      SettlementsUpdate(config, before, i, f);
      assert flights[i := f] == before[i := f] + [last];
      SettlementsLast(config, before[i := f], last);
      Exchange(
        Settlements(config, before[i := f]), SettlementOf(config, flights[i]),
        Settlements(config, before), SettlementOf(config, f), of);
    }
  }

  lemma StepSettles(config: Config, m: Machine, e: Event)
    requires multiset(m.submitted) == Settlements(config, m.flights)
    ensures multiset(Step(config, m, e).submitted) == Settlements(config, Step(config, m, e).flights)
  {
    hide Next, HandedOver, Settlements;
    match e
    case Clock(_) =>
    case Arrive(req, mode, stamp) =>
      SettlementsLast(config, m.flights, Flight(req, mode, stamp, Started));
    case Advance(i) =>
      if i < |m.flights| {
        AdvanceSettles(config, m, i);
      }
  }

  lemma AdvanceSettles(config: Config, m: Machine, i: nat)
    requires i < |m.flights| && multiset(m.submitted) == Settlements(config, m.flights)
    ensures
      multiset(Step(config, m, Advance(i)).submitted) == Settlements(config, Step(config, m, Advance(i)).flights)
  {
    hide Next, HandedOver, SettlementOf, Settlements;
    var f := m.flights[i];
    var g := f.(phase := Next(config, m.st, f).0);
    NextSettles(config, m.st, f);
    SettlementsUpdate(config, m.flights, i, g);
    Cancel(
      Settlements(config, m.flights[i := g]), Settlements(config, m.flights), SettlementOf(config, f),
      multiset(HandedOver(config, f)));
  }

  lemma Cancel(a: multiset<RawTx>, b: multiset<RawTx>, x: multiset<RawTx>, y: multiset<RawTx>)
    requires a + x == b + (x + y)
    ensures a == b + y
  {
    forall t
      ensures a[t] == (b + y)[t]
    {
      assert (a + x)[t] == (b + (x + y))[t];
    }
  }

  lemma NextSettles(config: Config, st: State, f: Flight)
    ensures
      SettlementOf(config, f.(phase := Next(config, st, f).0)) == SettlementOf(config, f) + multiset(HandedOver(config, f))
  {
    hide Admission, Dispatch, CheckTimeWindow, CheckReplay, Process, Submissions;
  }

  /**
   In every run the node has been handed, in order, what the accepted `/settle` requests
   carried as each took its last step: of every settled request its transaction, once,
   and nothing else.
   */
  lemma {:induction false} SubmittedIsLog(config: Config, events: seq<Event>)
    ensures Run(config, INITIAL, events).submitted == SubmissionLog(config, events)
    ensures multiset(Run(config, INITIAL, events).submitted) == Settlements(config, Run(config, INITIAL, events).flights)
    ensures forall f :: f in Run(config, INITIAL, events).flights && f.phase.Settled? ==> f.mode.Skip? && Acceptable(config, f.req)
  {
    InitialOk(config);
    RunKeeps(config, INITIAL, events);
    SettledAreAcceptable(config, Run(config, INITIAL, events));
    if events == [] {
    } else {
      var before, e := events[..|events| - 1], events[|events| - 1];
      var m := Run(config, INITIAL, before);
      SubmittedIsLog(config, before);
      RunKeeps(config, INITIAL, before);
      StepSettles(config, m, e);
      SubmittedGrows(config, m, e);
      hide Step, FlightsOk, AllApart, CatalogOk, Settlements, Sent;
    }
  }

  lemma SubmittedGrows(config: Config, m: Machine, e: Event)
    ensures Step(config, m, e).submitted == m.submitted + Sent(config, m, e)
  {
    hide Next, HandedOver;
  }

  lemma SettledAreAcceptable(config: Config, m: Machine)
    requires FlightsOk(config, m)
    ensures forall f :: f in m.flights && f.phase.Settled? ==> f.mode.Skip? && Acceptable(config, f.req)
  {
    hide Admission, Dispatch, InWindow, ReplayKey;
    forall f | f in m.flights && f.phase.Settled?
      ensures f.mode.Skip? && Acceptable(config, f.req)
    {
      var i :| 0 <= i < |m.flights| && m.flights[i] == f;
      assert FlightOk(config, m.st.now, m.flights[i]);
    }
  }

  lemma {:induction false} RunAppend(config: Config, m: Machine, first: seq<Event>, second: seq<Event>)
    ensures Run(config, m, first + second) == Run(config, Run(config, m, first), second)
  {
    hide Step;
    if second == [] {
      assert first + second == first;
    } else {
      var n := |second| - 1;
      RunAppend(config, m, first, second[..n]);
      RunStep(config, m, first + second[..n], second[n]);
      RunStep(config, Run(config, m, first), second[..n], second[n]);
      hide Run;
      assert (first + second[..n]) + [second[n]] == first + second && second[..n] + [second[n]] == second;
    }
  }

  /**
   While its window is open, one acceptable payload can be submitted any number of times,
   at one instant: `/settle` leaves repetition to the chain.
   */
  lemma {:induction false} SubmittedAnyNumberOfTimes(config: Config, m: Machine, req: Request, n: nat)
    returns (events: seq<Event>)
    requires Acceptable(config, req) && InWindow(config, m.st.now, Admission(config, req).value)
    requires config.chain.GrpcClient? && DecodeForSubmit(config.chain.codec, req.payload.payload).Ok?
    ensures
      var raw := DecodeForSubmit(config.chain.codec, req.payload.payload).value.0;
      var after := Run(config, m, events);
      && after.submitted == m.submitted + seq(n, _ => raw)
      && after.st.now == m.st.now && after.st.cache == m.st.cache
  {
    var raw := DecodeForSubmit(config.chain.codec, req.payload.payload).value.0;
    if n == 0 {
      events := [];
      assert m.submitted + seq(0, _ => raw) == m.submitted;
    } else {
      var before := SubmittedAnyNumberOfTimes(config, m, req, n - 1);
      var mid := Run(config, m, before);
      hide Run, Admission, Dispatch, DecodeForSubmit, InWindow;
      events := before + Burst(|mid.flights|, req, Skip, "");
      RunAppend(config, m, before, Burst(|mid.flights|, req, Skip, ""));
      SubmittedOnceMore(config, mid, req);
      OneCopyMore(m.submitted, raw, n);
    }
  }

  lemma OneCopyMore(sent: seq<RawTx>, raw: RawTx, n: nat)
    requires n > 0
    ensures (sent + seq(n - 1, _ => raw)) + [raw] == sent + seq(n, _ => raw)
  {
  }

  lemma SubmittedOnceMore(config: Config, m: Machine, req: Request)
    requires Acceptable(config, req) && InWindow(config, m.st.now, Admission(config, req).value)
    requires config.chain.GrpcClient? && DecodeForSubmit(config.chain.codec, req.payload.payload).Ok?
    ensures
      var after := Run(config, m, Burst(|m.flights|, req, Skip, ""));
      && after.submitted == m.submitted + [DecodeForSubmit(config.chain.codec, req.payload.payload).value.0]
      && after.st.now == m.st.now && after.st.cache == m.st.cache
  {
    BurstIsEndpoint(config, m, req, Skip, "");
    EnvelopeAcceptsIff(config, m.st, req, Skip);
    EnvelopeRecordsIff(config, m.st, req, Skip);
    AdmittedResolves(config, req);
    hide Run, CheckEnvelope, Admission, Dispatch, HandlerFor, DecodeForSubmit, InWindow, Burst, Tells, EntryFor, HandleSettle;
  }

  // ---------------------------------------------------------------------------
  // Verify now, settle later
  // ---------------------------------------------------------------------------

  lemma StepTakesTime(config: Config, m: Machine, e: Event)
    ensures m.st.now <= Step(config, m, e).st.now
    ensures |m.flights| <= |Step(config, m, e).flights|
  {
    hide CheckReplay, EntryFor, Admission, Dispatch, CheckTimeWindow;
  }

  lemma {:induction false} TimeOnlyPasses(config: Config, start: Machine, events: seq<Event>)
    ensures start.st.now <= Run(config, start, events).st.now
    ensures |start.flights| <= |Run(config, start, events).flights|
  {
    if events == [] {
    } else {
      var before := events[..|events| - 1];
      TimeOnlyPasses(config, start, before);
      StepTakesTime(config, Run(config, start, before), events[|events| - 1]);
    }
  }

  /**
   Once `/verify` accepts, the envelope check of `/settle` for the same request, after
   any further traffic, accepts if and only if the tolerated window is still open.
   */
  lemma SettleAfterVerify(
    config: Config, m: Machine, req: Request, stamp: string, others: seq<Flight>, sent: seq<RawTx>, traffic: seq<Event>)
    requires CheckEnvelope(config, m.st, req, Consume).0.Ok?
    ensures
      var verified := HandleVerify(config, m.st, req, stamp).1;
      var later := Run(config, Machine(verified, others, sent), traffic).st;
      && Admission(config, req).Ok?
      && (CheckEnvelope(config, later, req, Skip).0.Ok? <==> later.now <= Admission(config, req).value.validBefore + config.skew)
  {
    var verified := HandleVerify(config, m.st, req, stamp).1;
    var later := Run(config, Machine(verified, others, sent), traffic).st;
    assert verified.now == m.st.now by {
      EnvelopeRecordsIff(config, m.st, req, Consume);
      hide CheckEnvelope, Admission, Dispatch, EntryFor;
    }
    TimeOnlyPasses(config, Machine(verified, others, sent), traffic);
    EnvelopeAcceptsIff(config, m.st, req, Consume);
    EnvelopeAcceptsIff(config, later, req, Skip);
    hide CheckEnvelope, Admission, Dispatch, Run, HandleVerify, Remembered;
  }

  /** The same for a request accepted anywhere in an interleaved run. */
  lemma SettleAfterAccepted(config: Config, events: seq<Event>, i: nat, traffic: seq<Event>)
    requires i < |Run(config, INITIAL, events).flights| && Run(config, INITIAL, events).flights[i].phase.Accepted()
    ensures
      var f := Run(config, INITIAL, events).flights[i];
      var later := Run(config, Run(config, INITIAL, events), traffic).st;
      CheckEnvelope(config, later, f.req, Skip).0.Ok? <==> later.now <= f.phase.auth.validBefore + config.skew
  {
    var m := Run(config, INITIAL, events);
    var later := Run(config, m, traffic).st;
    InitialOk(config);
    RunKeeps(config, INITIAL, events);
    assert FlightOk(config, m.st.now, m.flights[i]);
    TimeOnlyPasses(config, m, traffic);
    EnvelopeAcceptsIff(config, later, m.flights[i].req, Skip);
    hide CheckEnvelope, Admission, Dispatch, Run, Remembered;
  }
}
