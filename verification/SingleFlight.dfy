/**
 Concurrent callers of Introspector.Active (internal/externaltoken/introspection.go).

 Every step is one atomic section: a read or a store under the cache mutex, an access to the flight
 table under the single-flight mutex, the moment a question leaves for the IdP or its answer arrives,
 or the passing of time. Any caller may be delayed for any time between two of its steps.
 */
module SingleFlight {
  import opened Common
  import opened IntrospectionCache

  datatype Config = Config(ttl: int, maxEntries: nat) {
    predicate Valid() { 0 < ttl && 0 < maxEntries }
  }

  /** History: what was asked of the IdP and what was written to the cache. */
  datatype Reply = Pending | NoAnswer(at: int) | Answer(active: bool, at: int)
  datatype Query = Query(jti: string, reply: Reply)
  datatype Write = Write(jti: string, active: bool, at: int, tokenExpiry: Option<int>, query: nat)

  /** How a call ends. A verdict names the write its cache read found, or the query that answered it, a failure the query. */
  datatype Outcome =
    | FromCache(active: bool, write: nat)
    | FromIdp(active: bool, query: nat)
    | Failed(query: nat)
    | Refused

  /** Progress of the function a flight runs. `at` is when the cache or the IdP settled its outcome. */
  datatype Stage =
    | Rechecking
    | Cleared
    | Asking(query: nat)
    | Replied(query: nat, active: bool, at: int)
    | Settled(outcome: Outcome, at: int)

  datatype Flight = Flight(id: nat, leader: nat, tokenExpiry: Option<int>, stage: Stage)
  datatype Landing = Landing(jti: string, outcome: Outcome, settledAt: int, landedAt: int)

  /**
   One call of Active. `seen` is the flight for its jti that was open when the call began, `flew` the one it led or
   joined.
   */
  datatype Caller =
    | Reading(jti: string, tokenExpiry: Option<int>, start: int, seen: Option<Flight>)
    | Missed(jti: string, tokenExpiry: Option<int>, start: int, seen: Option<Flight>)
    | Leading(jti: string, start: int, seen: Option<Flight>, flight: nat)
    | Waiting(jti: string, start: int, seen: Option<Flight>, flight: nat)
    | Done(jti: string, start: int, seen: Option<Flight>, end: int, outcome: Outcome, settledAt: int, flew: Option<nat>)

  /** `asked` is history too: the query of every flight that asked. */
  datatype State = State(
    now: int,
    results: Results,
    open: map<string, Flight>,
    landed: map<nat, Landing>,
    flights: nat,
    callers: map<nat, Caller>,
    lastWrite: map<string, nat>,
    writes: seq<Write>,
    queries: seq<Query>,
    asked: map<nat, nat>)

  const INITIAL := State(0, map[], map[], map[], 0, map[], map[], [], [], map[])

  datatype Step =
    | Tick(delay: nat)
    | Begin(caller: nat, token: string, jti: string, tokenExpiry: Option<int>)
    | FirstRead(caller: nat)
    | Enter(caller: nat)
    | Recheck(jti: string)
    | Ask(jti: string)
    | Receive(jti: string, answer: Option<bool>)
    | Keep(jti: string, after: Results)
    | Land(jti: string)
    | Wake(caller: nat)

  function SettledAt(stage: Stage): Option<int> {
    match stage
    case Replied(_, _, at) => Some(at)
    case Settled(_, at) => Some(at)
    case _ => None
  }

  function OpenFlight(s: State, jti: string): Option<Flight> {
    if jti in s.open then Some(s.open[jti]) else None
  }

  predicate InStage(s: State, jti: string, which: Stage -> bool) {
    jti in s.open && which(s.open[jti].stage)
  }

  ghost predicate Enabled(c: Config, s: State, step: Step) {
    match step
    case Tick(_) => true
    case Begin(t, _, _, _) => t !in s.callers || s.callers[t].Done?
    case FirstRead(t) => t in s.callers && s.callers[t].Reading?
    case Enter(t) => t in s.callers && s.callers[t].Missed?
    case Recheck(jti) => InStage(s, jti, (g: Stage) => g.Rechecking?)
    case Ask(jti) => InStage(s, jti, (g: Stage) => g.Cleared?)
    case Receive(jti, _) => InStage(s, jti, (g: Stage) => g.Asking? && g.query < |s.queries|)
    case Keep(jti, after) =>
      && InStage(s, jti, (g: Stage) => g.Replied?)
      && Stored(s.results, jti, NewEntry(c, s, jti), s.now, c.maxEntries, after)
    case Land(jti) =>
      && InStage(s, jti, (g: Stage) => g.Settled?)
      && s.open[jti].leader in s.callers && s.callers[s.open[jti].leader].Leading?
    case Wake(t) => t in s.callers && s.callers[t].Waiting? && s.callers[t].flight in s.landed
  }

  /** The entry the store of this flight writes. */
  function NewEntry(c: Config, s: State, jti: string): Entry
    requires jti in s.open && s.open[jti].stage.Replied?
  {
    Entry(s.open[jti].stage.active, ExpiryAt(s.now, c.ttl, s.open[jti].tokenExpiry))
  }

  function WithStage(s: State, jti: string, stage: Stage): State
    requires jti in s.open
  {
    s.(open := s.open[jti := s.open[jti].(stage := stage)])
  }

  function WithCaller(s: State, t: nat, caller: Caller): State {
    s.(callers := s.callers[t := caller])
  }

  /** The cache hit a read of this key finds: the write it returns is the last one made for the key. */
  function Hit(s: State, jti: string, active: bool): Outcome {
    FromCache(active, if jti in s.lastWrite then s.lastWrite[jti] else 0)
  }

  ghost function Apply(c: Config, s: State, step: Step): State
    requires Enabled(c, s, step)
  {
    match step
    case Tick(delay) => s.(now := s.now + delay)
    case Begin(t, token, jti, tokenExpiry) =>
      var seen := OpenFlight(s, jti);
      WithCaller(s, t, if token == "" || jti == "" then Done(jti, s.now, seen, s.now, Refused, s.now, None)
                       else Reading(jti, tokenExpiry, s.now, seen))
    case FirstRead(t) =>
      var r := s.callers[t];
      var found := Lookup(s.results, r.jti, s.now);
      WithCaller(s, t, if found.Some? then Done(r.jti, r.start, r.seen, s.now, Hit(s, r.jti, found.value), s.now, None)
                       else Missed(r.jti, r.tokenExpiry, r.start, r.seen))
    case Enter(t) =>
      var r := s.callers[t];
      if r.jti in s.open then
        WithCaller(s, t, Waiting(r.jti, r.start, r.seen, s.open[r.jti].id))
      else
        WithCaller(s, t, Leading(r.jti, r.start, r.seen, s.flights))
        .(open := s.open[r.jti := Flight(s.flights, t, r.tokenExpiry, Rechecking)], flights := s.flights + 1)
    case Recheck(jti) =>
      var found := Lookup(s.results, jti, s.now);
      WithStage(s, jti, if found.Some? then Settled(Hit(s, jti, found.value), s.now) else Cleared)
    case Ask(jti) =>
      WithStage(s, jti, Asking(|s.queries|)).(queries := s.queries + [Query(jti, Pending)],
                                                  asked := s.asked[s.open[jti].id := |s.queries|])
    case Receive(jti, answer) =>
      var q := s.open[jti].stage.query;
      WithStage(s, jti, if answer.Some? then Replied(q, answer.value, s.now) else Settled(Failed(q), s.now))
      .(queries := s.queries[q := Query(jti, if answer.Some? then Answer(answer.value, s.now) else NoAnswer(s.now))])
    case Keep(jti, after) =>
      var f := s.open[jti];
      WithStage(s, jti, Settled(FromIdp(f.stage.active, f.stage.query), f.stage.at))
      .(results := after, lastWrite := s.lastWrite[jti := |s.writes|],
        writes := s.writes + [Write(jti, f.stage.active, s.now, f.tokenExpiry, f.stage.query)])
    case Land(jti) =>
      var f := s.open[jti];
      var r := s.callers[f.leader];
      WithCaller(s, f.leader, Done(jti, r.start, r.seen, s.now, f.stage.outcome, f.stage.at, Some(f.id)))
      .(open := s.open - {jti}, landed := s.landed[f.id := Landing(jti, f.stage.outcome, f.stage.at, s.now)])
    case Wake(t) =>
      var r := s.callers[t];
      var l := s.landed[r.flight];
      WithCaller(s, t, Done(r.jti, r.start, r.seen, s.now, l.outcome, l.settledAt, Some(r.flight)))
  }

  /** A run: any interleaving of enabled steps from the empty cache. */
  ghost predicate IsRun(c: Config, states: seq<State>, steps: seq<Step>) {
    && |states| == |steps| + 1
    && states[0] == INITIAL
    && forall i :: 0 <= i < |steps| ==> Enabled(c, states[i], steps[i]) && states[i + 1] == Apply(c, states[i], steps[i])
  }

  // ----- The invariant -----

  /** The expiry of the entry a write produced. */
  function ExpiryOf(c: Config, w: Write): int {
    ExpiryAt(w.at, c.ttl, w.tokenExpiry)
  }

  /**
   An outcome for this jti settled at this instant is justified: the IdP answered exactly this to a question
   about this jti at that instant, or the cache held at that instant an entry written by an earlier store for
   this jti, not yet `ttl` old and not past the storing caller's token expiry.
   */
  ghost predicate Justified(c: Config, s: State, jti: string, outcome: Outcome, at: int) {
    match outcome
    case Failed(q) => q < |s.queries| && s.queries[q] == Query(jti, NoAnswer(at))
    case Refused => false
    case FromIdp(active, q) => q < |s.queries| && s.queries[q] == Query(jti, Answer(active, at))
    case FromCache(active, w) =>
      && w < |s.writes| && s.writes[w].jti == jti && s.writes[w].active == active
      && s.writes[w].at <= at < s.writes[w].at + c.ttl
      && (s.writes[w].tokenExpiry.Some? ==> at < s.writes[w].tokenExpiry.value)
  }

  ghost predicate WriteOk(s: State, i: nat)
    requires i < |s.writes|
  {
    var w := s.writes[i];
    && w.at <= s.now && w.query < |s.queries|
    && exists at :: at <= w.at && s.queries[w.query] == Query(w.jti, Answer(w.active, at))
  }

  ghost predicate EntryOk(c: Config, s: State, jti: string)
    requires jti in s.results
  {
    && jti in s.lastWrite && s.lastWrite[jti] < |s.writes|
    && var w := s.writes[s.lastWrite[jti]];
       w.jti == jti && s.results[jti] == Entry(w.active, ExpiryOf(c, w))
  }

  ghost predicate StageOk(c: Config, s: State, jti: string, stage: Stage, start: int) {
    match stage
    case Rechecking => true
    case Cleared => Lookup(s.results, jti, s.now).None?
    case Asking(q) => Lookup(s.results, jti, s.now).None? && q < |s.queries| && s.queries[q] == Query(jti, Pending)
    case Replied(q, active, at) =>
      start <= at <= s.now && q < |s.queries| && s.queries[q] == Query(jti, Answer(active, at))
    case Settled(outcome, at) => start <= at <= s.now && Justified(c, s, jti, outcome, at)
  }

  /** The outcome of a flight comes from the one question it asked, or from the cache if it asked none. */
  predicate OutcomeAsked(s: State, id: nat, outcome: Outcome) {
    match outcome
    case FromCache(_, _) => id !in s.asked
    case FromIdp(_, q) => id in s.asked && s.asked[id] == q
    case Failed(q) => id in s.asked && s.asked[id] == q
    case Refused => false
  }

  predicate StageAsked(s: State, id: nat, stage: Stage) {
    match stage
    case Rechecking => id !in s.asked
    case Cleared => id !in s.asked
    case Asking(q) => id in s.asked && s.asked[id] == q
    case Replied(q, _, _) => id in s.asked && s.asked[id] == q
    case Settled(outcome, _) => OutcomeAsked(s, id, outcome)
  }

  ghost predicate FlightOk(c: Config, s: State, jti: string)
    requires jti in s.open
  {
    var f := s.open[jti];
    && f.id < s.flights && f.id !in s.landed
    && f.leader in s.callers && s.callers[f.leader].Leading?
    && s.callers[f.leader].jti == jti && s.callers[f.leader].flight == f.id
    && StageOk(c, s, jti, f.stage, s.callers[f.leader].start) && StageAsked(s, f.id, f.stage)
  }

  ghost predicate LandingOk(c: Config, s: State, f: nat)
    requires f in s.landed
  {
    var l := s.landed[f];
    && f < s.flights && l.settledAt <= l.landedAt <= s.now
    && Justified(c, s, l.jti, l.outcome, l.settledAt) && OutcomeAsked(s, f, l.outcome)
  }

  /** When the flight with this id had settled by the time the call began, if it was open and settled then. */
  function SettledWhenSeen(seen: Option<Flight>, id: nat): Option<int> {
    if seen.Some? && seen.value.id == id then SettledAt(seen.value.stage) else None
  }

  /** A flight settled before the call began was already open and settled when it began, and the other way round. */
  ghost predicate SeenOk(seen: Option<Flight>, start: int, id: nat, settledAt: Option<int>) {
    && (SettledWhenSeen(seen, id).Some? ==> settledAt == SettledWhenSeen(seen, id))
    && (settledAt.Some? && settledAt.value < start ==> settledAt == SettledWhenSeen(seen, id))
  }

  ghost predicate OpenIsSeen(s: State, r: Caller) {
    r.jti in s.open ==> SeenOk(r.seen, r.start, s.open[r.jti].id, SettledAt(s.open[r.jti].stage))
  }

  ghost predicate CallerOk(c: Config, s: State, t: nat)
    requires t in s.callers
  {
    var r := s.callers[t];
    && r.start <= s.now && (r.seen.Some? ==> r.seen.value.id < s.flights)
    && match r
       case Reading(_, _, _, _) => OpenIsSeen(s, r)
       case Missed(_, _, _, _) => OpenIsSeen(s, r)
       case Leading(jti, _, _, f) =>
         jti in s.open && s.open[jti].id == f && s.open[jti].leader == t && (r.seen.Some? ==> r.seen.value.id < f)
       case Waiting(jti, start, seen, f) =>
         if f in s.landed then
           s.landed[f].jti == jti && start <= s.landed[f].landedAt && SeenOk(seen, start, f, Some(s.landed[f].settledAt))
         else
           jti in s.open && s.open[jti].id == f && OpenIsSeen(s, r)
       case Done(jti, start, seen, end, outcome, settledAt, flew) =>
         && start <= end <= s.now && settledAt <= end
         && if flew.Some? then EndedAs(s, r, flew.value) && SeenOk(seen, start, flew.value, Some(settledAt))
            else start <= settledAt && (outcome.Refused? || (outcome.FromCache? && Justified(c, s, jti, outcome, settledAt)))
  }

  /** The call ended as the flight it led or joined. */
  ghost predicate EndedAs(s: State, r: Caller, id: nat)
    requires r.Done?
  {
    id in s.landed && s.landed[id].jti == r.jti && s.landed[id].outcome == r.outcome && s.landed[id].settledAt == r.settledAt
  }

  /** A question still open belongs to the open flight of its jti. */
  ghost predicate QueryOk(s: State, q: nat)
    requires q < |s.queries|
  {
    s.queries[q].reply.Pending? ==> s.queries[q].jti in s.open && s.open[s.queries[q].jti].stage == Asking(q)
  }

  ghost predicate Inv(c: Config, s: State) {
    && (forall j, j' :: j in s.open && j' in s.open && s.open[j].id == s.open[j'].id ==> j == j')
    && (forall j :: j in s.open ==> FlightOk(c, s, j))
    && (forall t :: t in s.callers ==> CallerOk(c, s, t))
    && (forall f :: f in s.landed ==> LandingOk(c, s, f))
    && (forall q: nat :: q < |s.queries| ==> QueryOk(s, q))
    && (forall i: nat :: i < |s.writes| ==> WriteOk(s, i))
    && (forall j :: j in s.results ==> EntryOk(c, s, j))
    && (forall id :: id in s.asked ==> id < s.flights)
    && |s.results| <= c.maxEntries
  }

  /** History only grows: what justifies an outcome is never taken back. */
  ghost predicate Extends(s: State, s': State) {
    && s.now <= s'.now
    && s.writes <= s'.writes
    && |s.queries| <= |s'.queries|
    && forall q :: 0 <= q < |s.queries| && !s.queries[q].reply.Pending? ==> s'.queries[q] == s.queries[q]
  }

  lemma StepExtends(c: Config, s: State, step: Step)
    requires Inv(c, s) && Enabled(c, s, step)
    ensures Extends(s, Apply(c, s, step))
  {
    if step.Receive? {
      assert FlightOk(c, s, step.jti);
    }
  }

  lemma JustifiedStays(c: Config, s: State, s': State, jti: string, outcome: Outcome, at: int)
    requires Extends(s, s') && Justified(c, s, jti, outcome, at)
    ensures Justified(c, s', jti, outcome, at)
  {
  }

  lemma WritesStay(c: Config, s: State, s': State)
    requires Extends(s, s') && forall i: nat :: i < |s.writes| ==> WriteOk(s, i)
    ensures forall i: nat :: i < |s.writes| ==> WriteOk(s', i)
  {
    forall i: nat | i < |s.writes|
      ensures WriteOk(s', i)
    {
      assert WriteOk(s, i);
      var w := s.writes[i];
      var at :| at <= w.at && s.queries[w.query] == Query(w.jti, Answer(w.active, at));
      assert s'.queries[w.query] == Query(w.jti, Answer(w.active, at));
    }
  }

  // ----- Every step keeps the invariant -----

  lemma TickKeeps(c: Config, s: State, delay: nat)
    requires c.Valid() && Inv(c, s)
    ensures Inv(c, Apply(c, s, Tick(delay)))
  {
    TimePasses(c, s, delay, Apply(c, s, Tick(delay)));
  }

  lemma TimePasses(c: Config, s: State, delay: nat, s': State)
    requires Inv(c, s) && s' == s.(now := s.now + delay)
    ensures Inv(c, s')
  {
    WritesStay(c, s, s');
    forall t | t in s'.callers ensures CallerOk(c, s', t) { CallerAges(c, s, delay, t); }
    forall j | j in s'.open ensures FlightOk(c, s', j) { FlightAges(c, s, delay, j); }
    forall f | f in s'.landed ensures LandingOk(c, s', f) { assert LandingOk(c, s, f); }
    forall q: nat | q < |s'.queries| ensures QueryOk(s', q) { assert QueryOk(s, q); }
    forall j | j in s'.results ensures EntryOk(c, s', j) { assert EntryOk(c, s, j); }
  }

  lemma CallerAges(c: Config, s: State, delay: nat, t: nat)
    requires t in s.callers && CallerOk(c, s, t)
    ensures CallerOk(c, s.(now := s.now + delay), t)
  {
  }

  lemma FlightAges(c: Config, s: State, delay: nat, j: string)
    requires j in s.open && FlightOk(c, s, j)
    ensures FlightOk(c, s.(now := s.now + delay), j)
  {
  }

  /** A step that moves only one caller that leads no flight, before or after. */
  lemma CallerMoves(c: Config, s: State, t: nat, caller: Caller)
    requires Inv(c, s) && (t in s.callers ==> !s.callers[t].Leading?) && !caller.Leading?
    requires CallerOk(c, WithCaller(s, t, caller), t)
    ensures Inv(c, WithCaller(s, t, caller))
  {
    var s' := WithCaller(s, t, caller);
    WritesStay(c, s, s');
    forall u | u in s'.callers ensures CallerOk(c, s', u) { if u != t { BystanderStays(c, s, t, caller, u); } }
    forall j | j in s'.open ensures FlightOk(c, s', j) { FlightOfOther(c, s, t, caller, j); }
    forall f | f in s'.landed ensures LandingOk(c, s', f) { assert LandingOk(c, s, f); }
    forall q: nat | q < |s'.queries| ensures QueryOk(s', q) { assert QueryOk(s, q); }
    forall j | j in s'.results ensures EntryOk(c, s', j) { assert EntryOk(c, s, j); }
  }

  lemma BystanderStays(c: Config, s: State, t: nat, caller: Caller, u: nat)
    requires u in s.callers && u != t && CallerOk(c, s, u)
    ensures CallerOk(c, WithCaller(s, t, caller), u)
  {
  }

  lemma FlightOfOther(c: Config, s: State, t: nat, caller: Caller, j: string)
    requires j in s.open && FlightOk(c, s, j) && (t in s.callers ==> !s.callers[t].Leading?)
    ensures FlightOk(c, WithCaller(s, t, caller), j)
  {
  }

  /** A cache hit is justified by the write it finds. */
  lemma HitIsJustified(c: Config, s: State, jti: string)
    requires c.Valid() && Inv(c, s) && Lookup(s.results, jti, s.now).Some?
    ensures Justified(c, s, jti, Hit(s, jti, Lookup(s.results, jti, s.now).value), s.now)
  {
    assert EntryOk(c, s, jti);
    assert WriteOk(s, s.lastWrite[jti]);
  }

  lemma FirstReadKeeps(c: Config, s: State, t: nat)
    requires c.Valid() && Inv(c, s) && Enabled(c, s, FirstRead(t))
    ensures Inv(c, Apply(c, s, FirstRead(t)))
  {
    assert CallerOk(c, s, t);
    if Lookup(s.results, s.callers[t].jti, s.now).Some? {
      HitIsJustified(c, s, s.callers[t].jti);
    }
    CallerMoves(c, s, t, Apply(c, s, FirstRead(t)).callers[t]);
  }

  lemma WakeKeeps(c: Config, s: State, t: nat)
    requires c.Valid() && Inv(c, s) && Enabled(c, s, Wake(t))
    ensures Inv(c, Apply(c, s, Wake(t)))
  {
    assert CallerOk(c, s, t);
    assert LandingOk(c, s, s.callers[t].flight);
    CallerMoves(c, s, t, Apply(c, s, Wake(t)).callers[t]);
  }

  lemma EnterKeeps(c: Config, s: State, t: nat)
    requires c.Valid() && Inv(c, s) && Enabled(c, s, Enter(t))
    ensures Inv(c, Apply(c, s, Enter(t)))
  {
    assert CallerOk(c, s, t);
    var r := s.callers[t];
    if r.jti in s.open {
      assert FlightOk(c, s, r.jti);
      CallerMoves(c, s, t, Apply(c, s, Enter(t)).callers[t]);
    } else {
      LeadKeeps(c, s, t, Apply(c, s, Enter(t)));
    }
  }

  /** Opening a flight for a jti that has none. */
  ghost predicate Leads(s: State, t: nat, s': State) {
    && t in s.callers && s.callers[t].Missed? && s.callers[t].jti !in s.open
    && var r := s.callers[t];
       s' == WithCaller(s, t, Leading(r.jti, r.start, r.seen, s.flights))
             .(open := s.open[r.jti := Flight(s.flights, t, r.tokenExpiry, Rechecking)], flights := s.flights + 1)
  }

  lemma LeadKeeps(c: Config, s: State, t: nat, s': State)
    requires Inv(c, s) && Leads(s, t, s')
    ensures Inv(c, s')
  {
    LeadKeepsHistory(c, s, t, s');
    forall j | j in s'.open ensures FlightOk(c, s', j) { LeadFlight(c, s, t, s', j); }
    forall u | u in s'.callers ensures CallerOk(c, s', u) { LeadCaller(c, s, t, s', u); }
    forall j | j in s.open ensures s.open[j].id != s.flights { assert FlightOk(c, s, j); }
  }

  lemma LeadKeepsHistory(c: Config, s: State, t: nat, s': State)
    requires Inv(c, s) && Leads(s, t, s')
    ensures forall i: nat :: i < |s'.writes| ==> WriteOk(s', i)
    ensures forall f :: f in s'.landed ==> LandingOk(c, s', f)
    ensures forall q: nat :: q < |s'.queries| ==> QueryOk(s', q)
    ensures forall j :: j in s'.results ==> EntryOk(c, s', j)
  {
    WritesStay(c, s, s');
    forall f | f in s'.landed ensures LandingOk(c, s', f) { assert LandingOk(c, s, f); }
    forall q: nat | q < |s'.queries| ensures QueryOk(s', q) { assert QueryOk(s, q); }
    forall j | j in s'.results ensures EntryOk(c, s', j) { assert EntryOk(c, s, j); }
  }

  lemma LeadFlight(c: Config, s: State, t: nat, s': State, j: string)
    requires Inv(c, s) && Leads(s, t, s')
    requires j in s'.open
    ensures FlightOk(c, s', j)
  {
    if j != s.callers[t].jti {
      assert FlightOk(c, s, j);
    }
  }

  lemma LeadCaller(c: Config, s: State, t: nat, s': State, u: nat)
    requires Inv(c, s) && Leads(s, t, s')
    requires u in s'.callers
    ensures CallerOk(c, s', u)
  {
    assert u in s.callers ==> CallerOk(c, s, u);
    assert CallerOk(c, s, t);
  }

  /** Only this flight may have asked. */
  ghost predicate AskedByOne(s: State, s': State, id: nat) {
    forall i :: i != id ==> (i in s'.asked <==> i in s.asked) && (i in s.asked ==> s'.asked[i] == s.asked[i])
  }

  /** A step that advances one flight to a stage that is in order, possibly writing history and the cache. */
  lemma FlightMoves(c: Config, s: State, jti: string, s': State)
    requires Inv(c, s) && Extends(s, s') && jti in s.open && jti in s'.open
    requires s'.open == s.open[jti := s.open[jti].(stage := s'.open[jti].stage)]
    requires s'.callers == s.callers && s'.landed == s.landed && s'.flights == s.flights && s'.now == s.now
    requires forall j :: j in s.open && j != jti && Lookup(s.results, j, s.now).None? ==> Lookup(s'.results, j, s.now).None?
    requires forall q: nat :: q < |s.queries| && s.queries[q].jti != jti ==> s'.queries[q] == s.queries[q]
    requires s.open[jti].leader in s.callers && s.callers[s.open[jti].leader].Leading?
    requires StageOk(c, s', jti, s'.open[jti].stage, s.callers[s.open[jti].leader].start)
    requires AskedByOne(s, s', s.open[jti].id) && StageAsked(s', s.open[jti].id, s'.open[jti].stage)
    requires SettledAt(s.open[jti].stage).Some? ==> SettledAt(s'.open[jti].stage) == SettledAt(s.open[jti].stage)
    requires SettledAt(s'.open[jti].stage).Some? && SettledAt(s.open[jti].stage).None? ==> SettledAt(s'.open[jti].stage) == Some(s.now)
    requires forall i: nat :: i < |s'.writes| ==> WriteOk(s', i)
    requires forall j :: j in s'.results ==> EntryOk(c, s', j)
    requires forall q: nat :: q < |s'.queries| ==> QueryOk(s', q)
    requires |s'.results| <= c.maxEntries
    ensures Inv(c, s')
  {
    forall f | f in s'.landed ensures LandingOk(c, s', f) {
      assert LandingOk(c, s, f);
      JustifiedStays(c, s, s', s.landed[f].jti, s.landed[f].outcome, s.landed[f].settledAt);
    }
    forall j | j in s'.open ensures FlightOk(c, s', j) { OtherFlightStays(c, s, jti, s', j); }
    forall u | u in s'.callers ensures CallerOk(c, s', u) { CallerStays(c, s, jti, s', u); }
  }

  lemma OtherFlightStays(c: Config, s: State, jti: string, s': State, j: string)
    requires Inv(c, s) && Extends(s, s') && jti in s.open && jti in s'.open && j in s.open
    requires s'.open == s.open[jti := s.open[jti].(stage := s'.open[jti].stage)]
    requires s'.callers == s.callers && s'.landed == s.landed && s'.flights == s.flights && s'.now == s.now
    requires j != jti && Lookup(s.results, j, s.now).None? ==> Lookup(s'.results, j, s.now).None?
    requires forall q: nat :: q < |s.queries| && s.queries[q].jti != jti ==> s'.queries[q] == s.queries[q]
    requires s.open[jti].leader in s.callers && s.callers[s.open[jti].leader].Leading?
    requires StageOk(c, s', jti, s'.open[jti].stage, s.callers[s.open[jti].leader].start)
    requires AskedByOne(s, s', s.open[jti].id) && StageAsked(s', s.open[jti].id, s'.open[jti].stage)
    ensures FlightOk(c, s', j)
  {
    assert FlightOk(c, s, j);
    if j != jti && s.open[j].stage.Settled? {
      JustifiedStays(c, s, s', j, s.open[j].stage.outcome, s.open[j].stage.at);
    }
  }

  lemma CallerStays(c: Config, s: State, jti: string, s': State, u: nat)
    requires Inv(c, s) && Extends(s, s') && jti in s.open && jti in s'.open && u in s.callers
    requires s'.open == s.open[jti := s.open[jti].(stage := s'.open[jti].stage)]
    requires s'.callers == s.callers && s'.landed == s.landed && s'.flights == s.flights && s'.now == s.now
    requires SettledAt(s.open[jti].stage).Some? ==> SettledAt(s'.open[jti].stage) == SettledAt(s.open[jti].stage)
    requires SettledAt(s'.open[jti].stage).Some? && SettledAt(s.open[jti].stage).None? ==> SettledAt(s'.open[jti].stage) == Some(s.now)
    ensures CallerOk(c, s', u)
  {
    assert CallerOk(c, s, u);
    if s.callers[u].Done? && s.callers[u].outcome.FromCache? && s.callers[u].flew.None? {
      JustifiedStays(c, s, s', s.callers[u].jti, s.callers[u].outcome, s.callers[u].settledAt);
    }
  }

  lemma RecheckKeeps(c: Config, s: State, jti: string)
    requires c.Valid() && Inv(c, s) && Enabled(c, s, Recheck(jti))
    ensures Inv(c, Apply(c, s, Recheck(jti)))
  {
    var s' := Apply(c, s, Recheck(jti));
    assert FlightOk(c, s, jti);
    assert CallerOk(c, s, s.open[jti].leader);
    if Lookup(s.results, jti, s.now).Some? {
      HitIsJustified(c, s, jti);
    }
    WritesStay(c, s, s');
    forall q: nat | q < |s'.queries| ensures QueryOk(s', q) { assert QueryOk(s, q); }
    forall j | j in s'.results ensures EntryOk(c, s', j) { assert EntryOk(c, s, j); }
    FlightMoves(c, s, jti, s');
  }

  lemma AskKeeps(c: Config, s: State, jti: string)
    requires c.Valid() && Inv(c, s) && Enabled(c, s, Ask(jti))
    ensures Inv(c, Apply(c, s, Ask(jti)))
  {
    var s' := Apply(c, s, Ask(jti));
    assert FlightOk(c, s, jti);
    StepExtends(c, s, Ask(jti));
    WritesStay(c, s, s');
    forall q: nat | q < |s'.queries| ensures QueryOk(s', q) { if q < |s.queries| { assert QueryOk(s, q); } }
    forall j | j in s'.results ensures EntryOk(c, s', j) { assert EntryOk(c, s, j); }
    FlightMoves(c, s, jti, s');
  }

  lemma ReceiveKeeps(c: Config, s: State, jti: string, answer: Option<bool>)
    requires c.Valid() && Inv(c, s) && Enabled(c, s, Receive(jti, answer))
    ensures Inv(c, Apply(c, s, Receive(jti, answer)))
  {
    var s' := Apply(c, s, Receive(jti, answer));
    assert FlightOk(c, s, jti);
    assert CallerOk(c, s, s.open[jti].leader);
    StepExtends(c, s, Receive(jti, answer));
    WritesStay(c, s, s');
    forall q: nat | q < |s'.queries| ensures QueryOk(s', q) { assert QueryOk(s, q); }
    forall j | j in s'.results ensures EntryOk(c, s', j) { assert EntryOk(c, s, j); }
    FlightMoves(c, s, jti, s');
  }

  lemma KeepKeeps(c: Config, s: State, jti: string, after: Results)
    requires c.Valid() && Inv(c, s) && Enabled(c, s, Keep(jti, after))
    ensures Inv(c, Apply(c, s, Keep(jti, after)))
  {
    var s' := Apply(c, s, Keep(jti, after));
    assert FlightOk(c, s, jti);
    KeptHistory(c, s, jti, after);
    KeptEntries(c, s, jti, after);
    StoreKeepsTheBound(s.results, jti, NewEntry(c, s, jti), s.now, c.maxEntries, after);
    FlightMoves(c, s, jti, s');
  }

  lemma KeptHistory(c: Config, s: State, jti: string, after: Results)
    requires Inv(c, s) && Enabled(c, s, Keep(jti, after))
    ensures var s' := Apply(c, s, Keep(jti, after));
            && (forall i: nat :: i < |s'.writes| ==> WriteOk(s', i))
            && (forall q: nat :: q < |s'.queries| ==> QueryOk(s', q))
  {
    var s', f := Apply(c, s, Keep(jti, after)), s.open[jti];
    assert FlightOk(c, s, jti);
    WritesStay(c, s, s');
    forall i: nat | i < |s'.writes| ensures WriteOk(s', i) {
      if i == |s.writes| {
        assert s'.queries[f.stage.query] == Query(jti, Answer(f.stage.active, f.stage.at));
      }
    }
    forall q: nat | q < |s'.queries| ensures QueryOk(s', q) { assert QueryOk(s, q); }
  }

  lemma KeptEntries(c: Config, s: State, jti: string, after: Results)
    requires c.Valid() && Inv(c, s) && Enabled(c, s, Keep(jti, after))
    ensures forall j :: j in after ==> EntryOk(c, Apply(c, s, Keep(jti, after)), j)
    ensures forall j :: j in s.open && j != jti && Lookup(s.results, j, s.now).None? ==> Lookup(after, j, s.now).None?
  {
    var s', e := Apply(c, s, Keep(jti, after)), NewEntry(c, s, jti);
    StoreKeepsTheBound(s.results, jti, e, s.now, c.maxEntries, after);
    forall j | j in after ensures EntryOk(c, s', j) {
      if j != jti { assert EntryOk(c, s, j); }
    }
    forall j | j in s.open && j != jti && Lookup(s.results, j, s.now).None? ensures Lookup(after, j, s.now).None? {
      StoreNeverChangesAVerdict(s.results, jti, e, s.now, c.maxEntries, after, j, s.now);
    }
  }

  lemma LandKeeps(c: Config, s: State, jti: string)
    requires c.Valid() && Inv(c, s) && Enabled(c, s, Land(jti))
    ensures Inv(c, Apply(c, s, Land(jti)))
  {
    Landed(c, s, jti, s.open[jti], Apply(c, s, Land(jti)));
  }

  /** What landing a settled flight does. */
  ghost predicate Lands(s: State, jti: string, f: Flight, s': State) {
    && jti in s.open && s.open[jti] == f && f.stage.Settled?
    && f.leader in s.callers && s.callers[f.leader].Leading?
    && s' == WithCaller(s, f.leader, Done(jti, s.callers[f.leader].start, s.callers[f.leader].seen, s.now, f.stage.outcome, f.stage.at, Some(f.id)))
             .(open := s.open - {jti}, landed := s.landed[f.id := Landing(jti, f.stage.outcome, f.stage.at, s.now)])
  }

  lemma Landed(c: Config, s: State, jti: string, f: Flight, s': State)
    requires Inv(c, s) && Lands(s, jti, f, s')
    ensures Inv(c, s')
  {
    assert FlightOk(c, s, jti);
    WritesStay(c, s, s');
    forall j | j in s'.results ensures EntryOk(c, s', j) { assert EntryOk(c, s, j); }
    forall q: nat | q < |s'.queries| ensures QueryOk(s', q) { assert QueryOk(s, q); }
    forall g | g in s'.landed ensures LandingOk(c, s', g) { if g != f.id { assert LandingOk(c, s, g); } }
    forall j | j in s'.open ensures FlightOk(c, s', j) { LandedFlight(c, s, jti, f, s', j); }
    forall u | u in s'.callers ensures CallerOk(c, s', u) { LandedCaller(c, s, jti, f, s', u); }
  }

  lemma LandedFlight(c: Config, s: State, jti: string, f: Flight, s': State, j: string)
    requires Inv(c, s) && Lands(s, jti, f, s') && j in s'.open
    ensures FlightOk(c, s', j)
  {
    assert FlightOk(c, s, j);
    assert FlightOk(c, s, jti);
  }

  lemma LandedCaller(c: Config, s: State, jti: string, f: Flight, s': State, u: nat)
    requires Inv(c, s) && Lands(s, jti, f, s') && u in s'.callers
    ensures CallerOk(c, s', u)
  {
    if u == f.leader {
      LandedLeader(c, s, jti, f, s');
    } else {
      LandedOther(c, s, jti, f, s', u);
    }
  }

  lemma LandedLeader(c: Config, s: State, jti: string, f: Flight, s': State)
    requires Inv(c, s) && Lands(s, jti, f, s')
    ensures CallerOk(c, s', f.leader)
  {
    assert FlightOk(c, s, jti);
    assert CallerOk(c, s, f.leader);
  }

  lemma LandedOther(c: Config, s: State, jti: string, f: Flight, s': State, u: nat)
    requires Inv(c, s) && Lands(s, jti, f, s') && u in s.callers && u != f.leader
    ensures CallerOk(c, s', u)
  {
    assert FlightOk(c, s, jti);
    assert CallerOk(c, s, f.leader);
    if s.callers[u].Waiting? {
      LandedWaiting(c, s, jti, f, s', u);
    } else {
      LandedBystander(c, s, jti, f, s', u);
    }
  }

  lemma LandedWaiting(c: Config, s: State, jti: string, f: Flight, s': State, u: nat)
    requires Lands(s, jti, f, s') && u in s.callers && u != f.leader && s.callers[u].Waiting? && CallerOk(c, s, u)
    requires f.id !in s.landed && forall j :: j in s.open && s.open[j].id == f.id ==> j == jti
    ensures CallerOk(c, s', u)
  {
  }

  lemma LandedBystander(c: Config, s: State, jti: string, f: Flight, s': State, u: nat)
    requires Lands(s, jti, f, s') && u in s.callers && u != f.leader && !s.callers[u].Waiting? && CallerOk(c, s, u)
    requires f.id !in s.landed && s.callers[f.leader].jti == jti
    ensures CallerOk(c, s', u)
  {
  }

  lemma BeginKeeps(c: Config, s: State, t: nat, token: string, jti: string, tokenExpiry: Option<int>)
    requires c.Valid() && Inv(c, s) && Enabled(c, s, Begin(t, token, jti, tokenExpiry))
    ensures Inv(c, Apply(c, s, Begin(t, token, jti, tokenExpiry)))
  {
    CallerMoves(c, s, t, Apply(c, s, Begin(t, token, jti, tokenExpiry)).callers[t]);
  }

  /** A step a caller takes on its own. */
  predicate OfCaller(step: Step) {
    step.Tick? || step.Begin? || step.FirstRead? || step.Enter? || step.Wake?
  }

  lemma CallerStepKeeps(c: Config, s: State, step: Step)
    requires c.Valid() && Inv(c, s) && Enabled(c, s, step) && OfCaller(step)
    ensures Inv(c, Apply(c, s, step))
  {
    match step
    case Tick(delay) => TickKeeps(c, s, delay);
    case Begin(t, token, jti, tokenExpiry) => BeginKeeps(c, s, t, token, jti, tokenExpiry);
    case FirstRead(t) => FirstReadKeeps(c, s, t);
    case Enter(t) => EnterKeeps(c, s, t);
    case Wake(t) => WakeKeeps(c, s, t);
  }

  lemma FlightStepKeeps(c: Config, s: State, step: Step)
    requires c.Valid() && Inv(c, s) && Enabled(c, s, step) && !OfCaller(step)
    ensures Inv(c, Apply(c, s, step))
  {
    match step
    case Recheck(jti) => RecheckKeeps(c, s, jti);
    case Ask(jti) => AskKeeps(c, s, jti);
    case Receive(jti, answer) => ReceiveKeeps(c, s, jti, answer);
    case Keep(jti, after) => KeepKeeps(c, s, jti, after);
    case Land(jti) => LandKeeps(c, s, jti);
  }

  lemma StepKeeps(c: Config, s: State, step: Step)
    requires c.Valid() && Inv(c, s) && Enabled(c, s, step)
    ensures Inv(c, Apply(c, s, step))
  {
    if OfCaller(step) {
      CallerStepKeeps(c, s, step);
    } else {
      FlightStepKeeps(c, s, step);
    }
  }

  lemma {:induction false} RunKeeps(c: Config, states: seq<State>, steps: seq<Step>, i: nat)
    requires c.Valid() && IsRun(c, states, steps) && i < |states|
    ensures Inv(c, states[i])
  {
    if i > 0 {
      RunKeeps(c, states, steps, i - 1);
      StepKeeps(c, states[i - 1], steps[i - 1]);
    }
  }

  // ----- What callers may rely on, in every run -----

  /** At most one question per jti is open at the IdP at any time. */
  lemma OneQuestionPerJti(c: Config, states: seq<State>, steps: seq<Step>, i: nat, q: nat, q': nat)
    requires c.Valid() && IsRun(c, states, steps) && i < |states|
    requires q < |states[i].queries| && states[i].queries[q].reply.Pending?
    requires q' < |states[i].queries| && states[i].queries[q'].reply.Pending?
    requires states[i].queries[q].jti == states[i].queries[q'].jti
    ensures q == q'
  {
    RunKeeps(c, states, steps, i);
    assert QueryOk(states[i], q) && QueryOk(states[i], q');
  }

  /** A question is only asked when the cache has no live verdict for the jti and no question about it is open. */
  lemma AskedOnlyOnAMiss(c: Config, states: seq<State>, steps: seq<Step>, i: nat, jti: string)
    requires c.Valid() && IsRun(c, states, steps) && i < |steps| && steps[i] == Ask(jti)
    ensures Lookup(states[i].results, jti, states[i].now).None?
    ensures forall q: nat :: q < |states[i].queries| && states[i].queries[q].jti == jti ==> !states[i].queries[q].reply.Pending?
  {
    RunKeeps(c, states, steps, i);
    var s := states[i];
    assert Enabled(c, s, steps[i]);
    assert FlightOk(c, s, jti);
    forall q: nat | q < |s.queries| && s.queries[q].jti == jti ensures !s.queries[q].reply.Pending? {
      assert QueryOk(s, q);
    }
  }

  /** The IdP gave this answer about this jti at that instant. */
  ghost predicate AnsweredBy(s: State, jti: string, active: bool, q: nat, at: int) {
    at <= s.now && q < |s.queries| && s.queries[q] == Query(jti, Answer(active, at))
  }

  /** The call was settled by that answer, or by reading from the cache, before it went stale, what that answer had stored. */
  ghost predicate SettledBy(c: Config, s: State, call: Caller, q: nat, at: int)
    requires call.Done?
  {
    match call.outcome
    case Failed(_) => false
    case Refused => false
    case FromIdp(_, query) => q == query && at == call.settledAt
    case FromCache(active, write) =>
      && write < |s.writes| && s.writes[write].jti == call.jti
      && s.writes[write].active == active && s.writes[write].query == q
      && at <= s.writes[write].at <= call.settledAt < s.writes[write].at + c.ttl
      && (s.writes[write].tokenExpiry.Some? ==> call.settledAt < s.writes[write].tokenExpiry.value)
  }

  /**
   The cache stays within its bound and changes only by storing what the IdP answered, as one store may; a failure
   changes nothing.
   */
  lemma CacheHoldsAnswers(c: Config, states: seq<State>, steps: seq<Step>, i: nat)
    requires c.Valid() && IsRun(c, states, steps) && i < |steps|
    ensures |states[i].results| <= c.maxEntries
    ensures states[i + 1].results != states[i].results ==>
              && steps[i].Keep?
              && var s, jti, f := states[i], steps[i].jti, states[i].open[steps[i].jti];
                 && Stored(s.results, jti, Entry(f.stage.active, ExpiryAt(s.now, c.ttl, f.tokenExpiry)), s.now, c.maxEntries,
                           states[i + 1].results)
                 && exists q: nat, at :: AnsweredBy(s, jti, f.stage.active, q, at)
  {
    RunKeeps(c, states, steps, i);
    var s, step := states[i], steps[i];
    assert Enabled(c, s, step) && states[i + 1] == Apply(c, s, step);
    if step.Keep? {
      assert FlightOk(c, s, step.jti);
      var f := s.open[step.jti];
      assert AnsweredBy(s, step.jti, f.stage.active, f.stage.query, f.stage.at);
    }
  }

  /**
   Every verdict returned is one the IdP gave for this jti. It was settled no later than the return, either by
   that answer itself or by a cache read that found it stored for less than `ttl` and before the expiry of the
   token of the caller that stored it.
   */
  lemma VerdictsComeFromTheIdp(c: Config, states: seq<State>, steps: seq<Step>, i: nat, t: nat)
    requires c.Valid() && IsRun(c, states, steps) && i < |states|
    requires t in states[i].callers && states[i].callers[t].Done?
    requires states[i].callers[t].outcome.FromCache? || states[i].callers[t].outcome.FromIdp?
    ensures var s, call := states[i], states[i].callers[t];
            && call.start <= call.end && call.settledAt <= call.end
            && (exists q: nat, at :: AnsweredBy(s, call.jti, call.outcome.active, q, at) && SettledBy(c, s, call, q, at))
  {
    RunKeeps(c, states, steps, i);
    var s, call := states[i], states[i].callers[t];
    assert CallerOk(c, s, t);
    if call.outcome.FromCache? {
      assert WriteOk(s, call.outcome.write);
      var w := s.writes[call.outcome.write];
      var at :| at <= w.at && s.queries[w.query] == Query(w.jti, Answer(w.active, at));
      assert AnsweredBy(s, call.jti, call.outcome.active, w.query, at) && SettledBy(c, s, call, w.query, at);
    } else {
      assert AnsweredBy(s, call.jti, call.outcome.active, call.outcome.query, call.settledAt);
    }
  }

  /** The call of this caller that began at step b is still the same one in state i. */
  ghost predicate IsCall(steps: seq<Step>, b: nat, i: nat, t: nat) {
    && b < i <= |steps| && steps[b].Begin? && steps[b].caller == t
    && forall j :: b < j < i ==> !(steps[j].Begin? && steps[j].caller == t)
  }

  /** At step j the caller opens or joins the flight with this id for the jti of its call. */
  ghost predicate BoardsAt(states: seq<State>, steps: seq<Step>, j: nat, t: nat, jti: string, id: nat) {
    && j < |steps| && j + 1 < |states| && steps[j] == Enter(t)
    && jti in states[j + 1].open && states[j + 1].open[jti].id == id
  }

  /** The call that began at step b has by state i opened or joined this flight. */
  ghost predicate Boards(states: seq<State>, steps: seq<Step>, b: nat, i: nat, t: nat, jti: string, id: nat) {
    exists j: nat :: b < j < i && BoardsAt(states, steps, j, t, jti, id)
  }

  /** The record says that the call led or joined the flight with this id. */
  predicate RecordsFlight(r: Caller, id: nat) {
    ((r.Leading? || r.Waiting?) && r.flight == id) || (r.Done? && r.flew == Some(id))
  }

  /** A step that moves no caller. */
  predicate MovesNoCaller(step: Step) {
    step.Tick? || step.Recheck? || step.Ask? || step.Receive? || step.Keep?
  }

  lemma NoCallerMoved(c: Config, s: State, step: Step)
    requires Enabled(c, s, step) && MovesNoCaller(step)
    ensures Apply(c, s, step).callers == s.callers
  {
  }

  /** Only its own beginning changes what a call is about. */
  lemma AboutStays(c: Config, s: State, step: Step, t: nat)
    requires Enabled(c, s, step) && t in s.callers && !(step.Begin? && step.caller == t)
    requires step.Land? ==> LeaderIsAbout(s, step.jti)
    ensures var r, s' := s.callers[t], Apply(c, s, step);
            t in s'.callers && s'.callers[t].jti == r.jti && s'.callers[t].start == r.start && s'.callers[t].seen == r.seen
  {
    if MovesNoCaller(step) {
      NoCallerMoved(c, s, step);
    }
  }

  /** Only its own entering gives a call a flight. */
  lemma FlightStays(c: Config, s: State, step: Step, t: nat, id: nat)
    requires Enabled(c, s, step) && t in s.callers && !(step.Begin? && step.caller == t) && t in Apply(c, s, step).callers
    requires step.Land? ==> LeaderIsAbout(s, step.jti)
    ensures var r, s' := s.callers[t], Apply(c, s, step);
            RecordsFlight(s'.callers[t], id) <==>
            RecordsFlight(r, id) || (step == Enter(t) && r.jti in s'.open && s'.open[r.jti].id == id)
  {
    if MovesNoCaller(step) {
      NoCallerMoved(c, s, step);
    } else {
      FlightStaysWhenMoved(c, s, step, t, id);
    }
  }

  lemma FlightStaysWhenMoved(c: Config, s: State, step: Step, t: nat, id: nat)
    requires Enabled(c, s, step) && t in s.callers && !(step.Begin? && step.caller == t) && t in Apply(c, s, step).callers
    requires !MovesNoCaller(step) && (step.Land? ==> LeaderIsAbout(s, step.jti))
    ensures var r, s' := s.callers[t], Apply(c, s, step);
            RecordsFlight(s'.callers[t], id) <==>
            RecordsFlight(r, id) || (step == Enter(t) && r.jti in s'.open && s'.open[r.jti].id == id)
  {
  }

  predicate LeaderIsAbout(s: State, jti: string) {
    && jti in s.open && s.open[jti].leader in s.callers
    && var r := s.callers[s.open[jti].leader]; r.Leading? && r.jti == jti && r.flight == s.open[jti].id
  }

  lemma LeaderOfLanding(c: Config, s: State, step: Step)
    requires Inv(c, s) && Enabled(c, s, step)
    ensures step.Land? ==> LeaderIsAbout(s, step.jti)
  {
    if step.Land? {
      assert FlightOk(c, s, step.jti);
    }
  }

  lemma RunStep(c: Config, states: seq<State>, steps: seq<Step>, i: nat)
    requires c.Valid() && IsRun(c, states, steps) && i < |steps|
    ensures Inv(c, states[i]) && Enabled(c, states[i], steps[i]) && states[i + 1] == Apply(c, states[i], steps[i])
  {
    RunKeeps(c, states, steps, i);
  }

  /** What a call is about: its jti, when it began, and the flight that was open then. */
  predicate About(r: Caller, first: State, jti: string) {
    r.jti == jti && r.start == first.now && r.seen == OpenFlight(first, jti)
  }

  lemma {:induction false} CallRecord(c: Config, states: seq<State>, steps: seq<Step>, b: nat, i: nat, t: nat, id: nat)
    requires c.Valid() && IsRun(c, states, steps) && IsCall(steps, b, i, t)
    ensures t in states[i].callers && About(states[i].callers[t], states[b], steps[b].jti)
    ensures RecordsFlight(states[i].callers[t], id) <==> Boards(states, steps, b, i, t, steps[b].jti, id)
  {
    if b == i - 1 {
      CallBegins(c, states, steps, b, id);
    } else {
      CallRecord(c, states, steps, b, i - 1, t, id);
      CallGoesOn(c, states, steps, b, i - 1, t, id);
    }
  }

  lemma CallBegins(c: Config, states: seq<State>, steps: seq<Step>, b: nat, id: nat)
    requires c.Valid() && IsRun(c, states, steps) && b < |steps| && steps[b].Begin?
    ensures var t := steps[b].caller;
            && t in states[b + 1].callers && About(states[b + 1].callers[t], states[b], steps[b].jti)
            && !RecordsFlight(states[b + 1].callers[t], id)
  {
    RunStep(c, states, steps, b);
    BeginRecord(c, states[b], steps[b], id);
  }

  lemma CallGoesOn(c: Config, states: seq<State>, steps: seq<Step>, b: nat, i: nat, t: nat, id: nat)
    requires c.Valid() && IsRun(c, states, steps) && b < i < |steps| && steps[b].Begin?
    requires !(steps[i].Begin? && steps[i].caller == t)
    requires t in states[i].callers && About(states[i].callers[t], states[b], steps[b].jti)
    requires RecordsFlight(states[i].callers[t], id) <==> Boards(states, steps, b, i, t, steps[b].jti, id)
    ensures t in states[i + 1].callers && About(states[i + 1].callers[t], states[b], steps[b].jti)
    ensures RecordsFlight(states[i + 1].callers[t], id) <==> Boards(states, steps, b, i + 1, t, steps[b].jti, id)
  {
    RunStep(c, states, steps, i);
    LeaderOfLanding(c, states[i], steps[i]);
    AboutStays(c, states[i], steps[i], t);
    FlightStays(c, states[i], steps[i], t, id);
    BoardsOneMore(states, steps, b, i, t, steps[b].jti, id);
  }

  lemma BeginRecord(c: Config, s: State, step: Step, id: nat)
    requires Enabled(c, s, step) && step.Begin?
    ensures step.caller in Apply(c, s, step).callers
    ensures var r := Apply(c, s, step).callers[step.caller];
            r.jti == step.jti && r.start == s.now && r.seen == OpenFlight(s, step.jti) && !RecordsFlight(r, id)
  {
  }

  lemma BoardsOneMore(states: seq<State>, steps: seq<Step>, b: nat, i: nat, t: nat, jti: string, id: nat)
    requires b < i < |steps| && |states| == |steps| + 1
    ensures Boards(states, steps, b, i + 1, t, jti, id) <==>
            Boards(states, steps, b, i, t, jti, id) || BoardsAt(states, steps, i, t, jti, id)
  {
    if Boards(states, steps, b, i + 1, t, jti, id) {
      var j: nat :| b < j < i + 1 && BoardsAt(states, steps, j, t, jti, id);
    }
  }

  /** The open flight for this jti has been settled before now: it is waiting for its leader to come back. */
  predicate Lingering(s: State, jti: string) {
    jti in s.open && SettledAt(s.open[jti].stage).Some? && SettledAt(s.open[jti].stage).value < s.now
  }

  /**
   The verdict of a call was settled before the call began exactly when a flight for its jti was lingering then,
   and that flight is the one the call joined.
   */
  lemma OlderThanTheCallExactlyWhen(c: Config, states: seq<State>, steps: seq<Step>, b: nat, i: nat, t: nat)
    requires c.Valid() && IsRun(c, states, steps) && IsCall(steps, b, i, t)
    requires t in states[i].callers && states[i].callers[t].Done?
    ensures var call, first, jti := states[i].callers[t], states[b], steps[b].jti;
            && call.settledAt <= call.end
            && (call.settledAt < first.now <==>
                  Lingering(first, jti) && Boards(states, steps, b, i, t, jti, first.open[jti].id))
  {
    RunKeeps(c, states, steps, i);
    assert CallerOk(c, states[i], t);
    var call, jti := states[i].callers[t], steps[b].jti;
    if jti in states[b].open {
      CallRecord(c, states, steps, b, i, t, states[b].open[jti].id);
    } else {
      CallRecord(c, states, steps, b, i, t, 0);
    }
  }

  // ----- How calls end -----

  /** The first cache read of a call ends it exactly when it finds an unexpired verdict, with that verdict. */
  lemma FirstReadsAnswerExactlyWhen(c: Config, states: seq<State>, steps: seq<Step>, i: nat, t: nat)
    requires c.Valid() && IsRun(c, states, steps) && i < |steps| && steps[i] == FirstRead(t)
    ensures t in states[i].callers && t in states[i + 1].callers
    ensures var s, jti, after := states[i], states[i].callers[t].jti, states[i + 1].callers[t];
            if jti in s.results && s.now < s.results[jti].expiry then
              && after.Done? && after.end == s.now && after.settledAt == s.now
              && after.outcome.FromCache? && after.outcome.active == s.results[jti].active
            else after.Missed?
  {
    RunStep(c, states, steps, i);
  }

  /** The second read settles the flight exactly when it finds an unexpired verdict, with that verdict; otherwise it asks. */
  lemma RechecksSettleExactlyWhen(c: Config, states: seq<State>, steps: seq<Step>, i: nat, jti: string)
    requires c.Valid() && IsRun(c, states, steps) && i < |steps| && steps[i] == Recheck(jti)
    ensures jti in states[i].open && jti in states[i + 1].open
    ensures var s, stage := states[i], states[i + 1].open[jti].stage;
            if jti in s.results && s.now < s.results[jti].expiry then
              stage.Settled? && stage.at == s.now && stage.outcome.FromCache? && stage.outcome.active == s.results[jti].active
            else stage.Cleared?
  {
    RunStep(c, states, steps, i);
  }

  /** Every entry is what one store wrote, and is served until its time to live ends or the storing caller's token expires. */
  lemma EntriesServeUntil(c: Config, states: seq<State>, steps: seq<Step>, i: nat, jti: string, later: int) returns (w: nat)
    requires c.Valid() && IsRun(c, states, steps) && i < |states| && jti in states[i].results
    ensures w < |states[i].writes|
    ensures var s, write := states[i], states[i].writes[w];
            && write.jti == jti && write.active == s.results[jti].active
            && (later < s.results[jti].expiry <==>
                  later < write.at + c.ttl && (write.tokenExpiry.Some? ==> later < write.tokenExpiry.value))
  {
    RunKeeps(c, states, steps, i);
    assert EntryOk(c, states[i], jti);
    w := states[i].lastWrite[jti];
    ExpiryIsTheEarlier(states[i].writes[w].at, c.ttl, states[i].writes[w].tokenExpiry, later);
  }

  /** The token expiry a call began with is the one it reads with and, if it leads a flight, the one the flight stores with. */
  predicate Carries(s: State, t: nat, tokenExpiry: Option<int>) {
    && t in s.callers
    && match s.callers[t]
       case Reading(_, own, _, _) => own == tokenExpiry
       case Missed(_, own, _, _) => own == tokenExpiry
       case Leading(jti, _, _, _) => jti in s.open && s.open[jti].tokenExpiry == tokenExpiry
       case _ => true
  }

  lemma CarriesOn(c: Config, states: seq<State>, steps: seq<Step>, i: nat, t: nat, tokenExpiry: Option<int>)
    requires c.Valid() && IsRun(c, states, steps) && i < |steps|
    requires Carries(states[i], t, tokenExpiry) && !(steps[i].Begin? && steps[i].caller == t)
    ensures Carries(states[i + 1], t, tokenExpiry)
  {
    RunStep(c, states, steps, i);
    assert CallerOk(c, states[i], t);
    CarriesStep(c, states[i], steps[i], t, tokenExpiry);
  }

  lemma CarriesStep(c: Config, s: State, step: Step, t: nat, tokenExpiry: Option<int>)
    requires Enabled(c, s, step) && Carries(s, t, tokenExpiry) && !(step.Begin? && step.caller == t)
    requires s.callers[t].Leading? ==> s.open[s.callers[t].jti].leader == t
    ensures Carries(Apply(c, s, step), t, tokenExpiry)
  {
  }

  lemma {:induction false} FlightsStoreWithTheLeadersToken(c: Config, states: seq<State>, steps: seq<Step>, b: nat, i: nat, t: nat)
    requires c.Valid() && IsRun(c, states, steps) && IsCall(steps, b, i, t)
    ensures Carries(states[i], t, steps[b].tokenExpiry)
  {
    if b == i - 1 {
      RunStep(c, states, steps, b);
    } else {
      FlightsStoreWithTheLeadersToken(c, states, steps, b, i - 1, t);
      CarriesOn(c, states, steps, i - 1, t, steps[b].tokenExpiry);
    }
  }

  /** A landing flight hands its outcome to its leader at once, and to each caller that joined it when it wakes. */
  lemma LandingsHandOver(c: Config, states: seq<State>, steps: seq<Step>, i: nat)
    requires c.Valid() && IsRun(c, states, steps) && i < |steps|
    ensures steps[i].Land? ==>
              var f := states[i].open[steps[i].jti];
              && f.stage.Settled? && f.id in states[i + 1].landed && states[i + 1].landed[f.id].outcome == f.stage.outcome
              && states[i + 1].callers[f.leader].Done? && states[i + 1].callers[f.leader].outcome == f.stage.outcome
    ensures steps[i].Wake? ==>
              var r := states[i].callers[steps[i].caller];
              && r.Waiting? && r.flight in states[i].landed
              && states[i + 1].callers[steps[i].caller].Done?
              && states[i + 1].callers[steps[i].caller].outcome == states[i].landed[r.flight].outcome
  {
    RunStep(c, states, steps, i);
  }

  predicate RecordsRefusal(r: Caller) {
    r.Done? && r.outcome.Refused?
  }

  /** Nothing a flight settles is a refusal. */
  predicate SettlesNoRefusal(s: State, step: Step) {
    match step
    case Land(jti) => jti in s.open && s.open[jti].stage.Settled? && !s.open[jti].stage.outcome.Refused?
    case Wake(t) => WakesOn(s, t) && !s.landed[s.callers[t].flight].outcome.Refused?
    case _ => true
  }

  predicate WakesOn(s: State, t: nat) {
    t in s.callers && s.callers[t].Waiting? && s.callers[t].flight in s.landed
  }

  lemma NoRefusalIsSettled(c: Config, s: State, step: Step)
    requires Inv(c, s) && Enabled(c, s, step)
    ensures SettlesNoRefusal(s, step)
  {
    if step.Land? {
      assert FlightOk(c, s, step.jti);
    }
    if step.Wake? {
      assert LandingOk(c, s, s.callers[step.caller].flight);
    }
  }

  lemma RefusalStays(c: Config, s: State, step: Step, t: nat)
    requires Enabled(c, s, step) && SettlesNoRefusal(s, step) && t in s.callers && !(step.Begin? && step.caller == t)
    ensures t in Apply(c, s, step).callers
    ensures RecordsRefusal(Apply(c, s, step).callers[t]) <==> RecordsRefusal(s.callers[t])
  {
  }

  lemma RefusedAtOnce(c: Config, states: seq<State>, steps: seq<Step>, b: nat)
    requires c.Valid() && IsRun(c, states, steps) && b < |steps| && steps[b].Begin?
    ensures steps[b].caller in states[b + 1].callers
    ensures RecordsRefusal(states[b + 1].callers[steps[b].caller]) <==> steps[b].token == "" || steps[b].jti == ""
  {
    RunStep(c, states, steps, b);
  }

  lemma RefusalGoesOn(c: Config, states: seq<State>, steps: seq<Step>, i: nat, t: nat)
    requires c.Valid() && IsRun(c, states, steps) && i < |steps|
    requires t in states[i].callers && !(steps[i].Begin? && steps[i].caller == t)
    ensures t in states[i + 1].callers && (RecordsRefusal(states[i + 1].callers[t]) <==> RecordsRefusal(states[i].callers[t]))
  {
    RunStep(c, states, steps, i);
    NoRefusalIsSettled(c, states[i], steps[i]);
    RefusalStays(c, states[i], steps[i], t);
  }

  lemma {:induction false} RefusedExactlyWhen(c: Config, states: seq<State>, steps: seq<Step>, b: nat, i: nat, t: nat)
    requires c.Valid() && IsRun(c, states, steps) && IsCall(steps, b, i, t)
    ensures t in states[i].callers && (RecordsRefusal(states[i].callers[t]) <==> steps[b].token == "" || steps[b].jti == "")
  {
    if b == i - 1 {
      RefusedAtOnce(c, states, steps, b);
    } else {
      RefusedExactlyWhen(c, states, steps, b, i - 1, t);
      RefusalGoesOn(c, states, steps, i - 1, t);
    }
  }

  /** What the IdP replied to the question of this flight. */
  ghost predicate QuestionGot(s: State, id: nat, reply: Reply) {
    id in s.asked && s.asked[id] < |s.queries| && s.queries[s.asked[id]].reply == reply
  }

  /** The question of a flight the call led or joined got this reply. */
  ghost predicate ItsQuestionGot(states: seq<State>, steps: seq<Step>, b: nat, i: nat, t: nat, reply: Reply)
    requires b < |steps| && steps[b].Begin? && i < |states|
  {
    exists id: nat :: Boards(states, steps, b, i, t, steps[b].jti, id) && QuestionGot(states[i], id, reply)
  }

  /**
   A call without token or jti is refused. Any other ends as the question of the flight it led or joined: it fails
   exactly when that got no answer, and returns the IdP's answer exactly when it got one. If it led or joined no
   flight that asked, its verdict is from the cache.
   */
  lemma CallsEndExactlyAs(c: Config, states: seq<State>, steps: seq<Step>, b: nat, i: nat, t: nat)
    requires c.Valid() && IsRun(c, states, steps) && IsCall(steps, b, i, t)
    requires t in states[i].callers && states[i].callers[t].Done?
    ensures var outcome := states[i].callers[t].outcome;
            && (outcome.Refused? <==> steps[b].token == "" || steps[b].jti == "")
            && (outcome.Failed? <==> exists at :: ItsQuestionGot(states, steps, b, i, t, NoAnswer(at)))
            && (outcome.FromIdp? <==> exists active, at :: ItsQuestionGot(states, steps, b, i, t, Answer(active, at)))
            && (forall active, at :: ItsQuestionGot(states, steps, b, i, t, Answer(active, at)) ==> outcome.active == active)
  {
    RunKeeps(c, states, steps, i);
    RefusedExactlyWhen(c, states, steps, b, i, t);
    forall id: nat ensures Boards(states, steps, b, i, t, steps[b].jti, id) <==> states[i].callers[t].flew == Some(id) {
      CallRecord(c, states, steps, b, i, t, id);
    }
    forall reply ensures ItsQuestionGot(states, steps, b, i, t, reply) <==> EndsOnReply(states[i], states[i].callers[t], reply) {}
    EndedOnItsQuestion(c, states[i], t);
  }

  ghost predicate EndsOnReply(s: State, r: Caller, reply: Reply) {
    r.Done? && r.flew.Some? && QuestionGot(s, r.flew.value, reply)
  }

  lemma EndedOnItsQuestion(c: Config, s: State, t: nat)
    requires Inv(c, s) && t in s.callers && s.callers[t].Done?
    ensures var r := s.callers[t];
            && (r.outcome.Failed? <==> exists at :: EndsOnReply(s, r, NoAnswer(at)))
            && (r.outcome.FromIdp? <==> exists active, at :: EndsOnReply(s, r, Answer(active, at)))
            && (forall active, at :: EndsOnReply(s, r, Answer(active, at)) ==> r.outcome.active == active)
  {
    var r := s.callers[t];
    assert CallerOk(c, s, t);
    if r.flew.Some? {
      assert LandingOk(c, s, r.flew.value);
      if r.outcome.Failed? { assert EndsOnReply(s, r, NoAnswer(r.settledAt)); }
      if r.outcome.FromIdp? { assert EndsOnReply(s, r, Answer(r.outcome.active, r.settledAt)); }
    }
  }

  /** The half a caller can know beforehand: unless a flight lingers when the call begins, its verdict is new. */
  lemma SettledDuringTheCallUnlessLingering(c: Config, states: seq<State>, steps: seq<Step>, b: nat, i: nat, t: nat)
    requires c.Valid() && IsRun(c, states, steps) && IsCall(steps, b, i, t)
    requires t in states[i].callers && states[i].callers[t].Done?
    requires !Lingering(states[b], steps[b].jti)
    ensures states[b].now <= states[i].callers[t].settledAt <= states[i].callers[t].end
  {
    OlderThanTheCallExactlyWhen(c, states, steps, b, i, t);
  }

  /** One more step of a run. */
  lemma RunsOn(c: Config, states: seq<State>, steps: seq<Step>, step: Step)
    returns (states': seq<State>, steps': seq<Step>)
    requires IsRun(c, states, steps) && Enabled(c, states[|steps|], step)
    ensures IsRun(c, states', steps')
    ensures states' == states + [Apply(c, states[|steps|], step)] && steps' == steps + [step]
  {
    states' := states + [Apply(c, states[|steps|], step)];
    steps' := steps + [step];
  }

  const ANSWERED := Flight(0, 0, None, Replied(0, true, 0))

  /**
   The exception is real: a caller can join a flight whose question was answered an arbitrary time before the
   call began, because the flight stays in the table until its leader has stored the verdict and returned.
   */
  lemma AnAnswerOlderThanTheCall(c: Config, delay: nat) returns (states: seq<State>, steps: seq<Step>)
    requires c.Valid() && 0 < delay
    ensures IsRun(c, states, steps)
    ensures 1 in states[|steps|].callers
    ensures states[|steps|].callers[1] == Done("j", delay, Some(ANSWERED), delay, FromIdp(true, 0), 0, Some(0))
  {
    states, steps := AnsweredButNotStored(c);
    states, steps := RunsOn(c, states, steps, Tick(delay));
    states, steps := LateCallerJoins(c, states, steps);
  }

  /** A run in which the IdP has answered the first caller and the verdict is not stored yet. */
  lemma AnsweredButNotStored(c: Config) returns (states: seq<State>, steps: seq<Step>)
    requires c.Valid()
    ensures IsRun(c, states, steps)
    ensures states[|steps|] == State(0, map[], map["j" := ANSWERED], map[], 1,
                                     map[0 := Leading("j", 0, None, 0)], map[], [], [Query("j", Answer(true, 0))], map[0 := 0])
  {
    states, steps := FirstCallerLeads(c);
    states, steps := RunsOn(c, states, steps, Recheck("j"));
    states, steps := RunsOn(c, states, steps, Ask("j"));
    states, steps := RunsOn(c, states, steps, Receive("j", Some(true)));
  }

  lemma FirstCallerLeads(c: Config) returns (states: seq<State>, steps: seq<Step>)
    requires c.Valid()
    ensures IsRun(c, states, steps)
    ensures states[|steps|] == State(0, map[], map["j" := Flight(0, 0, None, Rechecking)], map[], 1,
                                     map[0 := Leading("j", 0, None, 0)], map[], [], [], map[])
  {
    states, steps := [INITIAL], [];
    states, steps := RunsOn(c, states, steps, Begin(0, "token", "j", None));
    states, steps := RunsOn(c, states, steps, FirstRead(0));
    states, steps := RunsOn(c, states, steps, Enter(0));
  }

  lemma LateCallerJoins(c: Config, states: seq<State>, steps: seq<Step>)
    returns (states': seq<State>, steps': seq<Step>)
    requires c.Valid() && IsRun(c, states, steps)
    requires var s := states[|steps|];
             && s.results == map[] && s.callers == map[0 := Leading("j", 0, None, 0)] && s.landed == map[] && s.now > 0
             && s.open == map["j" := ANSWERED]
    ensures IsRun(c, states', steps')
    ensures var now := states[|steps|].now;
            && 1 in states'[|steps'|].callers
            && states'[|steps'|].callers[1] == Done("j", now, Some(ANSWERED), now, FromIdp(true, 0), 0, Some(0))
  {
    states', steps' := RunsOn(c, states, steps, Begin(1, "token", "j", None));
    states', steps' := RunsOn(c, states', steps', FirstRead(1));
    states', steps' := RunsOn(c, states', steps', Enter(1));
    states', steps' := FlightLands(c, states', steps');
  }

  lemma FlightLands(c: Config, states: seq<State>, steps: seq<Step>)
    returns (states': seq<State>, steps': seq<Step>)
    requires c.Valid() && IsRun(c, states, steps)
    requires var s := states[|steps|];
             && s.results == map[] && s.landed == map[]
             && s.open == map["j" := ANSWERED]
             && s.callers == map[0 := Leading("j", 0, None, 0), 1 := Waiting("j", s.now, Some(ANSWERED), 0)]
    ensures IsRun(c, states', steps')
    ensures var now := states[|steps|].now;
            && 1 in states'[|steps'|].callers
            && states'[|steps'|].callers[1] == Done("j", now, Some(ANSWERED), now, FromIdp(true, 0), 0, Some(0))
  {
    var s := states[|steps|];
    var after := s.results["j" := NewEntry(c, s, "j")];
    assert |after| == 1;
    states', steps' := RunsOn(c, states, steps, Keep("j", after));
    states', steps' := RunsOn(c, states', steps', Land("j"));
    states', steps' := RunsOn(c, states', steps', Wake(1));
  }
}
