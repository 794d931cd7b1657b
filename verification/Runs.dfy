/**
 Whole runs of the facilitator, with requests in flight side by side: each request
 takes one step at a time, any other may move in between, and the clock may advance
 at any point.
 */
module Runs {
  import opened Catalog
  import opened Chain
  import opened Decimal
  import opened Envelope
  import opened Facilitator
  import opened Payment
  import opened Settlement
  import opened Wrappers

  /**
   How far a request has come. `seenAt` is the clock at its window check and
   `passedAt` the clock at its nonce check.
   */
  datatype Phase =
    | Started
    | Turned(error: VerifyError)
    | Windowed(auth: Authorization, seenAt: u64)
    | Passed(auth: Authorization, seenAt: u64, passedAt: u64)
    | Failed(auth: Authorization, seenAt: u64, passedAt: u64, error: VerifyError)
    | Valid(auth: Authorization, seenAt: u64, passedAt: u64)
    | Finished(auth: Authorization, seenAt: u64, passedAt: u64)
    | Settled(auth: Authorization, seenAt: u64, passedAt: u64)
  {
    predicate PastNonce() {
      Passed? || Failed? || Valid? || Finished? || Settled?
    }

    predicate Accepted() {
      Valid? || Finished? || Settled?
    }
  }

  datatype Flight = Flight(req: Request, mode: ReplayMode, stamp: string, phase: Phase)

  /** `submitted` is what the chain node has been handed. */
  datatype Machine = Machine(st: State, flights: seq<Flight>, submitted: seq<RawTx>)

  datatype Event =
    | Clock(time: u64)
    | Arrive(req: Request, mode: ReplayMode, stamp: string)
    | Advance(i: nat)

  /** The next step of one request: window, nonce, handler, catalog, and for `/settle` the chain. */
  function Next(config: Config, st: State, f: Flight): (Phase, State) {
    match f.phase
    case Started =>
      (match Admission(config, f.req)
       case Err(e) => (Turned(e), st)
       case Ok(auth) =>
         match CheckTimeWindow(config, st.now, auth)
         case Err(e) => (Turned(e), st)
         case Ok(_) => (Windowed(auth, st.now), st))
    case Windowed(auth, w) =>
      if f.mode.Skip? then (Passed(auth, w, st.now), st)
      else
        var (unseen, cache) := CheckReplay(config, st.now, st.cache, auth);
        if unseen.Err? then (Turned(unseen.error), st) else (Passed(auth, w, st.now), st.(cache := cache))
    case Passed(auth, w, p) =>
      (match Dispatch(config, f.req)
       case Err(e) => (Failed(auth, w, p, e), st)
       case Ok(_) => (Valid(auth, w, p), st))
    case Valid(auth, w, p) => (Finished(auth, w, p), Process(config, st, f.req, f.stamp).1)
    case Finished(auth, w, p) => (if f.mode.Skip? then Settled(auth, w, p) else f.phase, st)
    case _ => (f.phase, st)
  }

  /** What that step hands to the node. */
  function HandedOver(config: Config, f: Flight): seq<RawTx> {
    if f.phase.Finished? && f.mode.Skip? then Submissions(config.chain, f.req.payload.payload) else []
  }

  function Step(config: Config, m: Machine, e: Event): Machine {
    match e
    case Clock(time) => m.(st := m.st.(now := if m.st.now < time then time else m.st.now))
    case Arrive(req, mode, stamp) => m.(flights := m.flights + [Flight(req, mode, stamp, Started)])
    case Advance(i) =>
      if i >= |m.flights| then m
      else
        var (phase, st) := Next(config, m.st, m.flights[i]);
        Machine(st, m.flights[i := m.flights[i].(phase := phase)], m.submitted + HandedOver(config, m.flights[i]))
  }

  const INITIAL := Machine(State(0, map[], []), [], [])

  function Run(config: Config, start: Machine, events: seq<Event>): Machine {
    if events == [] then start
    else Step(config, Run(config, start, events[..|events| - 1]), events[|events| - 1])
  }

  lemma RunStep(config: Config, start: Machine, events: seq<Event>, e: Event)
    ensures Run(config, start, events + [e]) == Step(config, Run(config, start, events), e)
  {
    assert (events + [e])[..|events + [e]| - 1] == events;
  }

  // ---------------------------------------------------------------------------
  // What holds of every request in flight
  // ---------------------------------------------------------------------------

  /** A request that has come this far was entitled to, at the times it carries. */
  predicate FlightOk(config: Config, now: u64, f: Flight) {
    match f.phase
    case Started => true
    case Turned(_) => true
    case _ =>
      && Admission(config, f.req) == Ok(f.phase.auth)
      && InWindow(config, f.phase.seenAt, f.phase.auth) && f.phase.seenAt <= now
      && (f.phase.PastNonce() ==> f.phase.seenAt <= f.phase.passedAt <= now)
      && (f.phase.Failed? ==> Dispatch(config, f.req) == Err(f.phase.error))
      && (f.phase.Accepted() ==> Dispatch(config, f.req).Ok?)
      && (f.phase.Settled? ==> f.mode.Skip?)
  }

  /** The request went through the nonce check of the replay cache. */
  predicate Recorder(f: Flight) {
    f.mode.Consume? && f.phase.PastNonce()
  }

  /** Whatever has passed is recorded, at that time or later. */
  predicate Recorded(cache: Cache, f: Flight) {
    Recorder(f) ==>
      ReplayKey(f.phase.auth.nonce) in cache && f.phase.passedAt <= cache[ReplayKey(f.phase.auth.nonce)]
  }

  /** Two passes of one nonce are at least a lifetime apart. */
  predicate Apart(ttl: nat, f: Flight, g: Flight) {
    Recorder(f) && Recorder(g) && f.phase.auth.nonce == g.phase.auth.nonce ==>
      f.phase.passedAt + ttl <= g.phase.passedAt || g.phase.passedAt + ttl <= f.phase.passedAt
  }

  ghost predicate FlightsOk(config: Config, m: Machine) {
    forall i :: 0 <= i < |m.flights| ==> FlightOk(config, m.st.now, m.flights[i]) && Recorded(m.st.cache, m.flights[i])
  }

  ghost predicate AllApart(config: Config, flights: seq<Flight>) {
    forall i, j :: 0 <= i < |flights| && 0 <= j < |flights| && i != j ==> Apart(config.ttl, flights[i], flights[j])
  }

  ghost predicate MachineOk(config: Config, m: Machine) {
    FlightsOk(config, m) && AllApart(config, m.flights) && CatalogOk(config, m.st.catalog)
  }

  /** A step only lets time pass, and keeps or refreshes what is recorded. */
  lemma NextKeeps(config: Config, st: State, f: Flight)
    requires FlightOk(config, st.now, f) && Recorded(st.cache, f)
    ensures
      var (phase, after) := Next(config, st, f);
      && after.now == st.now
      && FlightOk(config, st.now, f.(phase := phase)) && Recorded(after.cache, f.(phase := phase))
      && (f.phase.PastNonce() ==> phase.PastNonce() && phase.auth == f.phase.auth && phase.passedAt == f.phase.passedAt)
  {
    if f.phase.Started? && Admission(config, f.req).Ok? {
      WindowIff(config, st.now, Admission(config, f.req).value);
    }
    hide Admission, Dispatch, CheckTimeWindow, ReplayKey, EntryFor;
  }

  /** What a step does to the record of another request, and how far it lands from it. */
  lemma NextKeepsOthers(config: Config, st: State, f: Flight, g: Flight)
    requires FlightOk(config, st.now, f) && Recorded(st.cache, f)
    requires FlightOk(config, st.now, g) && Recorded(st.cache, g)
    requires Apart(config.ttl, f, g)
    ensures
      var (phase, after) := Next(config, st, f);
      Recorded(after.cache, g) && Apart(config.ttl, f.(phase := phase), g)
  {
    hide Admission, Dispatch, CheckTimeWindow, ReplayKey, EntryFor, InWindow;
    if f.phase.Windowed? && f.mode.Consume? && Recorder(g) && g.phase.auth.nonce != f.phase.auth.nonce {
      KeysDiffer(f.phase.auth.nonce, g.phase.auth.nonce);
    }
  }

  lemma KeysDiffer(a: string, b: string)
    ensures ReplayKey(a) == ReplayKey(b) <==> a == b
  {
    assert ReplayKey(a)[10..] == a && ReplayKey(b)[10..] == b;
  }

  lemma NextKeepsCatalog(config: Config, st: State, f: Flight)
    requires FlightOk(config, st.now, f) && CatalogOk(config, st.catalog)
    ensures CatalogOk(config, Next(config, st, f).1.catalog)
  {
    if f.phase.Valid? && EntryFor(config, f.req, f.stamp).Some? {
      AdmittedEntryOk(config, f.req, f.stamp);
      PutKeeps(st.catalog, EntryFor(config, f.req, f.stamp).value);
    }
    hide EntryFor, EntryOk, Catalog.Put, UniqueKeys, Admission, Dispatch;
  }

  /** Every step of every interleaving keeps all of it. */
  lemma StepKeeps(config: Config, m: Machine, e: Event)
    requires MachineOk(config, m)
    ensures MachineOk(config, Step(config, m, e))
  {
    match e
    case Clock(_) =>
      hide InWindow, Admission, Dispatch, CatalogOk;
    case Arrive(_, _, _) =>
      hide CatalogOk;
    case Advance(i) =>
      if i < |m.flights| {
        var f := m.flights[i];
        NextKeeps(config, m.st, f);
        NextKeepsCatalog(config, m.st, f);
        forall j | 0 <= j < |m.flights| && j != i
          ensures
            var (phase, after) := Next(config, m.st, f);
            && Recorded(after.cache, m.flights[j])
            && Apart(config.ttl, f.(phase := phase), m.flights[j]) && Apart(config.ttl, m.flights[j], f.(phase := phase))
        {
          NextKeepsOthers(config, m.st, f, m.flights[j]);
        }
        hide Next, FlightOk, Recorded, Apart, CatalogOk;
      }
  }

  lemma {:induction false} RunKeeps(config: Config, start: Machine, events: seq<Event>)
    requires MachineOk(config, start)
    ensures MachineOk(config, Run(config, start, events))
  {
    if events == [] {
    } else {
      hide MachineOk;
      RunKeeps(config, start, events[..|events| - 1]);
      StepKeeps(config, Run(config, start, events[..|events| - 1]), events[|events| - 1]);
    }
  }

  lemma InitialOk(config: Config)
    ensures MachineOk(config, INITIAL)
  {
  }
}
