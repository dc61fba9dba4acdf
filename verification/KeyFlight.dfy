/**
 Concurrent callers of KeySet.Key (internal/externaltoken/keyset.go).

 Every step is one atomic section: a check, a lookup, a store or a recorded failure under the mutex, an access
 to the flight table under the single-flight mutex, the end of one attempt to load the document, or the passing
 of time. Any caller may be delayed for any time between two of its steps. All callers share one flight, as the
 flights are named by the URL of the document.
 */
module KeyFlight {
  import opened Common
  import opened Jwks
  import opened KeySet

  /** History: what was stored, and when. */
  datatype Document = Document(keys: Keys, at: int)

  /** Progress of the refresh a flight runs. Only a cancelled context cuts a wait short, and it stays cancelled. */
  datatype Stage =
    | Loading(attempt: nat, failed: LoadError)
    | Loaded(keys: Keys)
    | Stored(document: nat)
    | GaveUp(error: LoadError, cut: bool)
    | Recorded

  datatype Flight = Flight(id: nat, leader: nat, stage: Stage)
  datatype Landing = Landing(document: Option<nat>, at: int)

  /** One call of Key. `seen` is the flight that was open when the call began. */
  datatype Caller =
    | Checking(kid: string, start: int, seen: Option<Flight>)
    | Missed(kid: string, start: int, seen: Option<Flight>, checked: int)
    | Leading(kid: string, start: int, seen: Option<Flight>, flight: nat)
    | Waiting(kid: string, start: int, seen: Option<Flight>, flight: nat)
    | Looking(kid: string, start: int, seen: Option<Flight>, flight: nat)
    | Done(kid: string, start: int, seen: Option<Flight>, end: int, answer: Answer)

  datatype System = System(
    now: int,
    held: State,
    documents: seq<Document>,
    flight: Option<Flight>,
    landed: map<nat, Landing>,
    flights: nat,
    callers: map<nat, Caller>)

  const INITIAL := System(0, EMPTY, [], None, map[], 0, map[])

  datatype Step =
    | Tick(delay: nat)
    | Begin(caller: nat, kid: string)
    | CheckCache(caller: nat)
    | Enter(caller: nat)
    | Load(loaded: Result<Keys, LoadError>)
    | CutShort
    | Store
    | Record(cancelled: bool)
    | Land
    | Wake(caller: nat)
    | LookUp(caller: nat)

  predicate InStage(s: System, which: Stage -> bool) {
    s.flight.Some? && which(s.flight.value.stage)
  }

  predicate InPhase(s: System, t: nat, which: Caller -> bool) {
    t in s.callers && which(s.callers[t])
  }

  predicate Enabled(c: Config, s: System, step: Step) {
    match step
    case Tick(_) => true
    case Begin(t, _) => t !in s.callers || s.callers[t].Done?
    case CheckCache(t) => InPhase(s, t, (r: Caller) => r.Checking?)
    case Enter(t) => InPhase(s, t, (r: Caller) => r.Missed?)
    case Load(_) => InStage(s, (g: Stage) => g.Loading?)
    case CutShort => InStage(s, (g: Stage) => g.Loading? && g.attempt > 0)
    case Store => InStage(s, (g: Stage) => g.Loaded?)
    case Record(cancelled) => InStage(s, (g: Stage) => g.GaveUp? && (g.cut ==> cancelled))
    case Land =>
      && InStage(s, (g: Stage) => g.Stored? || g.Recorded?)
      && InPhase(s, s.flight.value.leader, (r: Caller) => r.Leading?)
    case Wake(t) => InPhase(s, t, (r: Caller) => r.Waiting? && r.flight in s.landed)
    case LookUp(t) => InPhase(s, t, (r: Caller) => r.Looking?)
  }

  function WithStage(s: System, stage: Stage): System
    requires s.flight.Some?
  {
    s.(flight := Some(s.flight.value.(stage := stage)))
  }

  function WithCaller(s: System, t: nat, caller: Caller): System {
    s.(callers := s.callers[t := caller])
  }

  /** What becomes of a caller whose flight has ended: it looks its key up, or reports the failure. */
  function AfterFlight(r: Caller, document: Option<nat>, now: int): Caller
    requires r.Leading? || r.Waiting?
  {
    if document.Some? then Looking(r.kid, r.start, r.seen, r.flight) else Done(r.kid, r.start, r.seen, now, Unavailable)
  }

  function Apply(c: Config, s: System, step: Step): System
    requires Enabled(c, s, step)
  {
    match step
    case Tick(delay) => s.(now := s.now + delay)
    case Begin(t, kid) =>
      WithCaller(s, t, if kid == "" then Done(kid, s.now, s.flight, s.now, Answer.MissingKeyID) else Checking(kid, s.now, s.flight))
    case CheckCache(t) =>
      var r := s.callers[t];
      var answer := Check(c, s.held, r.kid, s.now);
      WithCaller(s, t, if answer.FetchRequired? then Missed(r.kid, r.start, r.seen, s.now) else Done(r.kid, r.start, r.seen, s.now, answer))
    case Enter(t) =>
      var r := s.callers[t];
      if s.flight.Some? then WithCaller(s, t, Waiting(r.kid, r.start, r.seen, s.flight.value.id))
      else WithCaller(s, t, Leading(r.kid, r.start, r.seen, s.flights))
           .(flight := Some(Flight(s.flights, t, Loading(0, FetchFailed))), flights := s.flights + 1)
    case Load(loaded) =>
      var attempt := s.flight.value.stage.attempt;
      WithStage(s, match loaded
                   case Ok(keys) => Loaded(keys)
                   case Err(e) => if Transient(e) && attempt < |c.backoff| then Loading(attempt + 1, e) else GaveUp(e, false))
    case CutShort => WithStage(s, GaveUp(s.flight.value.stage.failed, true))
    case Store =>
      var keys := s.flight.value.stage.keys;
      WithStage(s, Stored(|s.documents|))
      .(held := State(keys, Some(s.now + c.cacheTTL), Some(s.now), None, None), documents := s.documents + [Document(keys, s.now)])
    case Record(cancelled) =>
      var e := s.flight.value.stage.error;
      WithStage(s, Recorded)
      .(held := if cancelled then s.held else s.held.(lastFailure := Some(s.now), lastError := Some(e)))
    case Land =>
      var f := s.flight.value;
      var document := if f.stage.Stored? then Some(f.stage.document) else None;
      WithCaller(s, f.leader, AfterFlight(s.callers[f.leader], document, s.now))
      .(flight := None, landed := s.landed[f.id := Landing(document, s.now)])
    case Wake(t) =>
      WithCaller(s, t, AfterFlight(s.callers[t], s.landed[s.callers[t].flight].document, s.now))
    case LookUp(t) =>
      var r := s.callers[t];
      WithCaller(s, t, Done(r.kid, r.start, r.seen, s.now, if r.kid in s.held.keys then Found(s.held.keys[r.kid]) else UnknownKeyID))
  }

  /** A run: any interleaving of enabled steps from the empty key set. */
  ghost predicate IsRun(c: Config, states: seq<System>, steps: seq<Step>) {
    && |states| == |steps| + 1
    && states[0] == INITIAL
    && forall i :: 0 <= i < |steps| ==> Enabled(c, states[i], steps[i]) && states[i + 1] == Apply(c, states[i], steps[i])
  }

  // ----- The invariant -----

  /** What is held is the last stored document, served from its store on. */
  ghost predicate HeldOk(c: Config, s: System) {
    if s.documents == [] then s.held.keys == map[] && s.held.expiry == None && s.held.lastRefresh == None
    else var last := s.documents[|s.documents| - 1];
         s.held.keys == last.keys && s.held.expiry == Some(last.at + c.cacheTTL) && s.held.lastRefresh == Some(last.at)
  }

  ghost predicate DocumentsOk(s: System) {
    && (forall d :: 0 <= d < |s.documents| ==> s.documents[d].at <= s.now)
    && forall d, d' :: 0 <= d < d' < |s.documents| ==> s.documents[d].at <= s.documents[d'].at
  }

  /** The open flight has stored a document. While it is open that is the last one. */
  predicate HasStored(f: Option<Flight>) {
    f.Some? && f.value.stage.Stored?
  }

  ghost predicate FlightOk(s: System) {
    s.flight.Some? ==>
      var f := s.flight.value;
      && f.id < s.flights && f.id !in s.landed
      && f.leader in s.callers && s.callers[f.leader].Leading? && s.callers[f.leader].flight == f.id
      && (f.stage.Stored? ==> |s.documents| == f.stage.document + 1 && s.callers[f.leader].start <= s.documents[f.stage.document].at)
  }

  ghost predicate LandingOk(s: System, f: nat)
    requires f in s.landed
  {
    f < s.flights && s.landed[f].at <= s.now && (s.landed[f].document.Some? ==> s.landed[f].document.value < |s.documents|)
  }

  /** The shorter of the two delays a stored document keeps callers from fetching. */
  function Serving(c: Config): int {
    if c.cacheTTL < c.refreshCooldown then c.cacheTTL else c.refreshCooldown
  }

  /** A flight that stored before the call began was open with that document when the call began. */
  ghost predicate SeenStored(s: System, r: Caller, id: nat, d: nat)
    requires d < |s.documents|
  {
    s.documents[d].at < r.start ==> r.seen.Some? && r.seen.value.id == id && r.seen.value.stage == Stored(d)
  }

  /** The same for the flight that is open now, whose document has by then been served for its time. */
  ghost predicate OpenIsSeen(s: System, r: Caller) {
    HasStored(s.flight) && s.flight.value.stage.document < |s.documents| ==>
      SeenStored(s, r, s.flight.value.id, s.flight.value.stage.document)
  }

  ghost predicate OpenIsOld(c: Config, s: System, r: Caller, checked: int) {
    HasStored(s.flight) && s.flight.value.stage.document < |s.documents| ==>
      var at := s.documents[s.flight.value.stage.document].at;
      at < r.start ==> Serving(c) <= checked - at
  }

  /** The flight has landed with a document stored during the call, or landed late. */
  ghost predicate LandedOk(c: Config, s: System, r: Caller, id: nat) {
    && id in s.landed
    && (s.landed[id].document.Some? && s.landed[id].document.value < |s.documents| ==>
          var d := s.landed[id].document.value;
          && SeenStored(s, r, id, d)
          && (s.documents[d].at < r.start ==> Serving(c) <= s.landed[id].at - s.documents[d].at))
  }

  ghost predicate CallerOk(c: Config, s: System, t: nat)
    requires t in s.callers
  {
    var r := s.callers[t];
    && r.start <= s.now
    && match r
       case Checking(_, _, _) => OpenIsSeen(s, r)
       case Missed(_, _, _, checked) => checked <= s.now && OpenIsSeen(s, r) && OpenIsOld(c, s, r, checked)
       case Leading(_, _, _, f) => s.flight.Some? && s.flight.value.id == f && s.flight.value.leader == t
       case Waiting(_, _, _, f) =>
         if f in s.landed then LandedOk(c, s, r, f)
         else s.flight.Some? && s.flight.value.id == f && OpenIsSeen(s, r) && OpenIsOld(c, s, r, s.now)
       case Looking(_, _, _, f) => LandedOk(c, s, r, f) && s.landed[f].document.Some?
       case Done(_, _, _, end, _) => r.start <= end <= s.now
  }

  ghost predicate Inv(c: Config, s: System) {
    && HeldOk(c, s) && DocumentsOk(s) && FlightOk(s)
    && (forall f :: f in s.landed ==> LandingOk(s, f))
    && (forall t :: t in s.callers ==> CallerOk(c, s, t))
  }

  // ----- Every step keeps the invariant -----

  /** A step that moves one caller that leads no flight, before or after. */
  lemma CallerMoves(c: Config, s: System, t: nat, r: Caller)
    requires Inv(c, s) && (t in s.callers ==> !s.callers[t].Leading?) && !r.Leading?
    requires CallerOk(c, WithCaller(s, t, r), t)
    ensures Inv(c, WithCaller(s, t, r))
  {
    var s' := WithCaller(s, t, r);
    forall f | f in s'.landed ensures LandingOk(s', f) { assert LandingOk(s, f); }
    forall u | u in s'.callers ensures CallerOk(c, s', u) { if u != t { assert CallerOk(c, s, u); } }
  }

  lemma TickKeeps(c: Config, s: System, delay: nat)
    requires Inv(c, s)
    ensures Inv(c, Apply(c, s, Tick(delay)))
  {
    var s' := Apply(c, s, Tick(delay));
    forall f | f in s'.landed ensures LandingOk(s', f) { assert LandingOk(s, f); }
    forall u | u in s'.callers ensures CallerOk(c, s', u) { assert CallerOk(c, s, u); }
  }

  lemma BeginKeeps(c: Config, s: System, t: nat, kid: string)
    requires Inv(c, s) && Enabled(c, s, Begin(t, kid))
    ensures Inv(c, Apply(c, s, Begin(t, kid)))
  {
    CallerMoves(c, s, t, Apply(c, s, Begin(t, kid)).callers[t]);
  }

  lemma CheckKeeps(c: Config, s: System, t: nat)
    requires c.Valid() && Inv(c, s) && Enabled(c, s, CheckCache(t))
    ensures Inv(c, Apply(c, s, CheckCache(t)))
  {
    assert CallerOk(c, s, t);
    CallerMoves(c, s, t, Apply(c, s, CheckCache(t)).callers[t]);
  }

  lemma EnterKeeps(c: Config, s: System, t: nat)
    requires Inv(c, s) && Enabled(c, s, Enter(t))
    ensures Inv(c, Apply(c, s, Enter(t)))
  {
    assert CallerOk(c, s, t);
    var s' := Apply(c, s, Enter(t));
    if s.flight.Some? {
      CallerMoves(c, s, t, s'.callers[t]);
    } else {
      forall f | f in s'.landed ensures LandingOk(s', f) { assert LandingOk(s, f); }
      forall u | u in s'.callers ensures CallerOk(c, s', u) { if u != t { assert CallerOk(c, s, u); } }
      forall f | f in s.landed ensures f != s.flights { assert LandingOk(s, f); }
    }
  }

  /** A step that moves the flight on without storing anything. */
  lemma FlightMoves(c: Config, s: System, s': System)
    requires Inv(c, s) && s.flight.Some? && s'.flight.Some? && !s'.flight.value.stage.Stored?
    requires s' == s.(held := s'.held, flight := Some(s.flight.value.(stage := s'.flight.value.stage)))
    requires s'.held.keys == s.held.keys && s'.held.expiry == s.held.expiry && s'.held.lastRefresh == s.held.lastRefresh
    ensures Inv(c, s')
  {
    forall f | f in s'.landed ensures LandingOk(s', f) { assert LandingOk(s, f); }
    forall u | u in s'.callers ensures CallerOk(c, s', u) { assert CallerOk(c, s, u); }
  }

  lemma StoreKeeps(c: Config, s: System)
    requires Inv(c, s) && Enabled(c, s, Store)
    ensures Inv(c, Apply(c, s, Store))
  {
    var s' := Apply(c, s, Store);
    assert CallerOk(c, s, s.flight.value.leader);
    forall f | f in s'.landed ensures LandingOk(s', f) { assert LandingOk(s, f); }
    forall u | u in s'.callers ensures CallerOk(c, s', u) { StoredCaller(c, s, u); }
  }

  lemma StoredCaller(c: Config, s: System, u: nat)
    requires Inv(c, s) && Enabled(c, s, Store) && u in s.callers
    ensures CallerOk(c, Apply(c, s, Store), u)
  {
    assert CallerOk(c, s, u);
    var r := s.callers[u];
    if (r.Waiting? || r.Looking?) && r.flight in s.landed {
      assert LandingOk(s, r.flight);
    }
  }

  lemma LandKeeps(c: Config, s: System)
    requires Inv(c, s) && Enabled(c, s, Land)
    ensures Inv(c, Apply(c, s, Land))
  {
    var s' := Apply(c, s, Land);
    forall f | f in s'.landed ensures LandingOk(s', f) { if f in s.landed { assert LandingOk(s, f); } }
    forall u | u in s'.callers ensures CallerOk(c, s', u) { assert CallerOk(c, s, u); }
  }

  lemma WakeKeeps(c: Config, s: System, t: nat)
    requires Inv(c, s) && Enabled(c, s, Wake(t))
    ensures Inv(c, Apply(c, s, Wake(t)))
  {
    assert CallerOk(c, s, t);
    CallerMoves(c, s, t, Apply(c, s, Wake(t)).callers[t]);
  }

  lemma LookUpKeeps(c: Config, s: System, t: nat)
    requires Inv(c, s) && Enabled(c, s, LookUp(t))
    ensures Inv(c, Apply(c, s, LookUp(t)))
  {
    assert CallerOk(c, s, t);
    CallerMoves(c, s, t, Apply(c, s, LookUp(t)).callers[t]);
  }

  lemma StepKeeps(c: Config, s: System, step: Step)
    requires c.Valid() && Inv(c, s) && Enabled(c, s, step)
    ensures Inv(c, Apply(c, s, step))
  {
    match step
    case Tick(delay) => TickKeeps(c, s, delay);
    case Begin(t, kid) => BeginKeeps(c, s, t, kid);
    case CheckCache(t) => CheckKeeps(c, s, t);
    case Enter(t) => EnterKeeps(c, s, t);
    case Load(_) => FlightMoves(c, s, Apply(c, s, step));
    case CutShort => FlightMoves(c, s, Apply(c, s, step));
    case Store => StoreKeeps(c, s);
    case Record(_) => FlightMoves(c, s, Apply(c, s, step));
    case Land => LandKeeps(c, s);
    case Wake(t) => WakeKeeps(c, s, t);
    case LookUp(t) => LookUpKeeps(c, s, t);
  }

  lemma {:induction false} RunKeeps(c: Config, states: seq<System>, steps: seq<Step>, i: nat)
    requires c.Valid() && IsRun(c, states, steps) && i < |states|
    ensures Inv(c, states[i])
  {
    if i > 0 {
      RunKeeps(c, states, steps, i - 1);
      StepKeeps(c, states[i - 1], steps[i - 1]);
    }
  }

  // ----- What holds of a call from its beginning on -----

  /** The call of this caller that began at step b is still the same one at step i. */
  ghost predicate IsCall(steps: seq<Step>, b: nat, i: nat, t: nat, kid: string) {
    && b < i < |steps| && steps[b] == Begin(t, kid)
    && forall j :: b < j < i ==> !(steps[j].Begin? && steps[j].caller == t)
  }

  /** Only its own beginning changes what a call is about. */
  lemma RecordStays(c: Config, s: System, step: Step, t: nat)
    requires Enabled(c, s, step) && t in s.callers && !(step.Begin? && step.caller == t)
    ensures var s' := Apply(c, s, step);
            && t in s'.callers && s'.callers[t].kid == s.callers[t].kid
            && s'.callers[t].start == s.callers[t].start && s'.callers[t].seen == s.callers[t].seen
  {
  }

  lemma {:induction false} CallRecord(c: Config, states: seq<System>, steps: seq<Step>, b: nat, i: nat, t: nat, kid: string)
    requires IsRun(c, states, steps) && IsCall(steps, b, i, t, kid)
    ensures t in states[i].callers
    ensures var r := states[i].callers[t]; r.kid == kid && r.start == states[b].now && r.seen == states[b].flight
  {
    assert Enabled(c, states[i - 1], steps[i - 1]) && states[i - 1 + 1] == Apply(c, states[i - 1], steps[i - 1]);
    if b < i - 1 {
      CallRecord(c, states, steps, b, i - 1, t, kid);
      RecordStays(c, states[i - 1], steps[i - 1], t);
    }
  }

  /** Documents are only added, and those added after an instant were stored after it. */
  lemma {:induction false} LaterDocuments(c: Config, states: seq<System>, steps: seq<Step>, b: nat, i: nat)
    requires IsRun(c, states, steps) && b <= i < |states|
    ensures states[b].documents <= states[i].documents && states[b].now <= states[i].now
    ensures forall d :: |states[b].documents| <= d < |states[i].documents| ==> states[b].now <= states[i].documents[d].at
  {
    if b < i {
      LaterDocuments(c, states, steps, b, i - 1);
      assert Enabled(c, states[i - 1], steps[i - 1]) && states[i - 1 + 1] == Apply(c, states[i - 1], steps[i - 1]);
    }
  }

  /** This step lands the flight with this id, at this instant. */
  ghost predicate LandsAt(states: seq<System>, steps: seq<Step>, l: nat, id: nat, at: int) {
    && l < |steps| && l < |states| && steps[l] == Land && states[l].now == at
    && states[l].flight.Some? && states[l].flight.value.id == id
  }

  lemma {:induction false} LandedByAStep(c: Config, states: seq<System>, steps: seq<Step>, b: nat, i: nat, id: nat)
    requires c.Valid() && IsRun(c, states, steps) && b <= i < |states|
    requires id !in states[b].landed && id in states[i].landed
    ensures exists l :: b <= l < i && LandsAt(states, steps, l, id, states[i].landed[id].at)
  {
    assert Enabled(c, states[i - 1], steps[i - 1]) && states[i - 1 + 1] == Apply(c, states[i - 1], steps[i - 1]);
    if id in states[i - 1].landed {
      RunKeeps(c, states, steps, i - 1);
      LandedByAStep(c, states, steps, b, i - 1, id);
    } else {
      assert LandsAt(states, steps, i - 1, id, states[i].landed[id].at);
    }
  }

  // ----- What callers may rely on, in every run -----

  ghost function LastDocument(s: System): Document
    requires s.documents != []
  {
    s.documents[|s.documents| - 1]
  }

  /** The open flight stored the last document before now: it is waiting for its leader to come back. */
  ghost predicate Lingering(s: System) {
    HasStored(s.flight) && s.documents != [] && LastDocument(s).at < s.now
  }

  /** When the failure was recorded that is still cooling down: nothing has been stored since. */
  ghost function LastFailureAt(states: seq<System>, steps: seq<Step>, i: nat): Option<int>
    requires |states| == |steps| + 1 && i < |states|
  {
    if i == 0 then None else
    match steps[i - 1]
    case Store => None
    case Record(cancelled) => if cancelled then LastFailureAt(states, steps, i - 1) else Some(states[i - 1].now)
    case _ => LastFailureAt(states, steps, i - 1)
  }

  lemma {:induction false} HeldIsTheLastFailure(c: Config, states: seq<System>, steps: seq<Step>, i: nat)
    requires IsRun(c, states, steps) && i < |states|
    ensures states[i].held.lastFailure == LastFailureAt(states, steps, i)
  {
    if i > 0 {
      HeldIsTheLastFailure(c, states, steps, i - 1);
      assert Enabled(c, states[i - 1], steps[i - 1]) && states[i - 1 + 1] == Apply(c, states[i - 1], steps[i - 1]);
    }
  }

  /** A call without a kid is refused at once; any other checks what is held for its kid. */
  lemma CallsBegin(c: Config, states: seq<System>, steps: seq<Step>, i: nat, t: nat, kid: string)
    requires IsRun(c, states, steps) && i < |steps| && steps[i] == Begin(t, kid)
    ensures t in states[i + 1].callers
    ensures var r := states[i + 1].callers[t];
            if kid == "" then r.Done? && r.answer == Answer.MissingKeyID && r.end == states[i].now
            else r.Checking? && r.kid == kid
  {
    assert Enabled(c, states[i], steps[i]) && states[i + 1] == Apply(c, states[i], steps[i]);
  }

  /** The last document is still served. */
  ghost predicate Serves(c: Config, s: System) {
    s.documents != [] && s.now - LastDocument(s).at < c.cacheTTL
  }

  /**
   In every run a check is answered exactly by what the last document holds, whatever has failed since; if that says
   nothing, it is turned away exactly while the last failure cools down, and goes on to fetch otherwise.
   */
  lemma ChecksAnswerExactlyAs(c: Config, states: seq<System>, steps: seq<Step>, i: nat, t: nat)
    requires c.Valid() && IsRun(c, states, steps) && i < |steps| && steps[i] == CheckCache(t)
    ensures t in states[i].callers && t in states[i + 1].callers
    ensures var s, kid, after, failed := states[i], states[i].callers[t].kid, states[i + 1].callers[t], LastFailureAt(states, steps, i);
            if Serves(c, s) && kid in LastDocument(s).keys then after.Done? && after.answer == Found(LastDocument(s).keys[kid])
            else if Serves(c, s) && s.now - LastDocument(s).at < c.refreshCooldown then after.Done? && after.answer == UnknownKeyID
            else if failed.Some? && s.now - failed.value < c.failureCooldown then after.Done? && after.answer == Unavailable
            else after.Missed?
  {
    RunKeeps(c, states, steps, i);
    HeldIsTheLastFailure(c, states, steps, i);
    assert Enabled(c, states[i], steps[i]) && states[i + 1] == Apply(c, states[i], steps[i]);
  }

  /** What is held answers a check with the last document, within the time this kind of answer is given. */
  lemma ChecksAreFresh(c: Config, states: seq<System>, steps: seq<Step>, i: nat, t: nat)
    requires c.Valid() && IsRun(c, states, steps) && i < |steps| && steps[i] == CheckCache(t)
    requires states[i + 1].callers[t].Done?
    ensures var s, kid := states[i], states[i].callers[t].kid;
            match states[i + 1].callers[t].answer
            case Found(key) =>
              && s.documents != [] && kid in LastDocument(s).keys && LastDocument(s).keys[kid] == key
              && s.now - LastDocument(s).at < c.cacheTTL
            case UnknownKeyID =>
              s.documents != [] && kid !in LastDocument(s).keys && s.now - LastDocument(s).at < c.refreshCooldown
            case Unavailable => s.held.lastFailure.Some? && s.now - s.held.lastFailure.value < c.failureCooldown
            case _ => false
  {
    RunKeeps(c, states, steps, i);
    assert Enabled(c, states[i], steps[i]) && states[i + 1] == Apply(c, states[i], steps[i]);
  }

  /**
   After a fetch the answer is what the last stored document says of the kid. That document was stored before the
   call began exactly when a flight that had stored was lingering then and nothing has been stored since.
   The leader of such a flight took at least the shorter of cacheTTL and refreshCooldown to land it.
   */
  lemma LookupsAreFreshExactlyWhen(c: Config, states: seq<System>, steps: seq<Step>, b: nat, i: nat, t: nat, kid: string)
    requires c.Valid() && IsRun(c, states, steps) && IsCall(steps, b, i, t, kid) && steps[i] == LookUp(t)
    ensures states[i].documents != [] && states[i + 1].callers[t].Done?
    ensures var document := LastDocument(states[i]);
            && states[i + 1].callers[t].answer == (if kid in document.keys then Found(document.keys[kid]) else UnknownKeyID)
            && document.at <= states[i].now
            && (document.at < states[b].now <==> Lingering(states[b]) && states[i].documents == states[b].documents)
            && (document.at < states[b].now ==>
                  exists l, at :: b <= l < i && LandsAt(states, steps, l, states[b].flight.value.id, at) && Serving(c) <= at - document.at)
  {
    var s, first := states[i], states[b];
    RunKeeps(c, states, steps, i);
    RunKeeps(c, states, steps, b);
    CallRecord(c, states, steps, b, i, t, kid);
    LaterDocuments(c, states, steps, b, i);
    assert Enabled(c, s, steps[i]) && states[i + 1] == Apply(c, s, steps[i]);
    assert CallerOk(c, s, t);
    var id := s.callers[t].flight;
    assert LandingOk(s, id);
    var d := s.landed[id].document.value;
    if LastDocument(s).at < first.now {
      assert s.documents[d].at <= LastDocument(s).at;
      assert first.flight.value.id == id && first.flight.value.stage == Stored(d);
      assert s.documents == first.documents;
      LandedByAStep(c, states, steps, b, i, id);
      var l :| b <= l < i && LandsAt(states, steps, l, id, s.landed[id].at);
    }
  }

  /** The half a caller can know beforehand: unless a flight lingers when the call begins, a fetched answer is new. */
  lemma FreshUnlessLingering(c: Config, states: seq<System>, steps: seq<Step>, b: nat, i: nat, t: nat, kid: string)
    requires c.Valid() && IsRun(c, states, steps) && IsCall(steps, b, i, t, kid) && steps[i] == LookUp(t)
    requires !Lingering(states[b])
    ensures states[i].documents != [] && states[b].now <= LastDocument(states[i]).at <= states[i].now
  {
    LookupsAreFreshExactlyWhen(c, states, steps, b, i, t, kid);
  }

  /** The document being stored is one this flight loaded. */
  ghost predicate LoadedAt(states: seq<System>, steps: seq<Step>, l: nat, id: nat, keys: Keys) {
    && l < |steps| && l < |states| && steps[l] == Load(Ok(keys))
    && states[l].flight.Some? && states[l].flight.value.id == id
  }

  lemma {:induction false} LoadedByTheFlight(c: Config, states: seq<System>, steps: seq<Step>, i: nat)
    requires IsRun(c, states, steps) && i < |states|
    requires states[i].flight.Some? && states[i].flight.value.stage.Loaded?
    ensures exists l: nat :: l < i && LoadedAt(states, steps, l, states[i].flight.value.id, states[i].flight.value.stage.keys)
  {
    assert i > 0;
    assert Enabled(c, states[i - 1], steps[i - 1]) && states[i - 1 + 1] == Apply(c, states[i - 1], steps[i - 1]);
    if steps[i - 1].Load? {
      assert LoadedAt(states, steps, i - 1, states[i].flight.value.id, states[i].flight.value.stage.keys);
    } else {
      LoadedByTheFlight(c, states, steps, i - 1);
    }
  }

  /** Keys, expiry and the time of the last refresh change only by storing what the flight loaded; a failure changes none. */
  lemma OnlyLoadedDocumentsAreHeld(c: Config, states: seq<System>, steps: seq<Step>, i: nat)
    requires c.Valid() && IsRun(c, states, steps) && i < |steps|
    ensures var was, held := states[i].held, states[i + 1].held;
            held.keys != was.keys || held.expiry != was.expiry || held.lastRefresh != was.lastRefresh ==>
              && steps[i] == Store && states[i].flight.Some?
              && held == State(held.keys, Some(states[i].now + c.cacheTTL), Some(states[i].now), None, None)
              && states[i + 1].documents == states[i].documents + [Document(held.keys, states[i].now)]
              && exists l: nat :: l < i && LoadedAt(states, steps, l, states[i].flight.value.id, held.keys)
  {
    assert Enabled(c, states[i], steps[i]) && states[i + 1] == Apply(c, states[i], steps[i]);
    if steps[i] == Store {
      LoadedByTheFlight(c, states, steps, i);
    }
  }

  // ----- How refreshes go and fetches end -----

  /** The flight with this id stored a document at this step. */
  ghost predicate StoresAt(states: seq<System>, steps: seq<Step>, k: nat, id: nat) {
    && k < |steps| && k < |states| && steps[k] == Store
    && states[k].flight.Some? && states[k].flight.value.id == id
  }

  ghost predicate StoredBy(states: seq<System>, steps: seq<Step>, i: nat, id: nat) {
    exists k: nat :: k < i && StoresAt(states, steps, k, id)
  }

  /** What the state remembers of that. */
  predicate RemembersStore(s: System, id: nat) {
    || (s.flight.Some? && s.flight.value.id == id && s.flight.value.stage.Stored?)
    || (id in s.landed && s.landed[id].document.Some?)
  }

  lemma RemembersOn(c: Config, s: System, step: Step, id: nat)
    requires Inv(c, s) && Enabled(c, s, step)
    ensures RemembersStore(Apply(c, s, step), id) <==>
            RemembersStore(s, id) || (step == Store && s.flight.Some? && s.flight.value.id == id)
  {
    if id in s.landed {
      assert LandingOk(s, id);
    }
  }

  lemma StoredByOneMore(states: seq<System>, steps: seq<Step>, i: nat, id: nat)
    requires i < |steps|
    ensures StoredBy(states, steps, i + 1, id) <==> StoredBy(states, steps, i, id) || StoresAt(states, steps, i, id)
  {
    if StoredBy(states, steps, i + 1, id) {
      var k: nat :| k < i + 1 && StoresAt(states, steps, k, id);
    }
  }

  lemma RemembersStep(c: Config, states: seq<System>, steps: seq<Step>, i: nat, id: nat)
    requires c.Valid() && IsRun(c, states, steps) && i < |steps|
    ensures RemembersStore(states[i + 1], id) <==> RemembersStore(states[i], id) || StoresAt(states, steps, i, id)
  {
    RunKeeps(c, states, steps, i);
    assert Enabled(c, states[i], steps[i]) && states[i + 1] == Apply(c, states[i], steps[i]);
    RemembersOn(c, states[i], steps[i], id);
  }

  lemma {:induction false} StoresAreRemembered(c: Config, states: seq<System>, steps: seq<Step>, i: nat, id: nat)
    requires c.Valid() && IsRun(c, states, steps) && i < |states|
    ensures StoredBy(states, steps, i, id) <==> RemembersStore(states[i], id)
  {
    if i > 0 {
      StoresAreRemembered(c, states, steps, i - 1, id);
      RemembersStep(c, states, steps, i - 1, id);
      StoredByOneMore(states, steps, i - 1, id);
    }
  }

  /** The caller whose fetch ends at this step, and the flight it led or joined. */
  predicate EndsFetch(s: System, step: Step, t: nat, id: nat) {
    || (step == Land && s.flight.Some? && s.flight.value.leader == t && s.flight.value.id == id)
    || (step == Wake(t) && t in s.callers && s.callers[t].Waiting? && s.callers[t].flight == id)
  }

  /** A fetch lets its caller look the key up exactly when the flight it led or joined stored a document; it fails otherwise. */
  lemma FetchesEndExactlyAs(c: Config, states: seq<System>, steps: seq<Step>, i: nat, t: nat, id: nat)
    requires c.Valid() && IsRun(c, states, steps) && i < |steps| && EndsFetch(states[i], steps[i], t, id)
    ensures t in states[i + 1].callers
    ensures var after := states[i + 1].callers[t];
            if StoredBy(states, steps, i, id) then after.Looking?
            else after.Done? && after.answer == Unavailable && after.end == states[i].now
  {
    RunKeeps(c, states, steps, i);
    StoresAreRemembered(c, states, steps, i, id);
    assert Enabled(c, states[i], steps[i]) && states[i + 1] == Apply(c, states[i], steps[i]);
    if steps[i].Wake? {
      assert CallerOk(c, states[i], t);
      assert FlightOk(states[i]);
    }
  }

  /** How often the flight with this id has tried to load the document. */
  ghost function LoadsBy(states: seq<System>, steps: seq<Step>, i: nat, id: nat): nat
    requires |states| == |steps| + 1 && i < |states|
  {
    if i == 0 then 0 else
    LoadsBy(states, steps, i - 1, id)
    + if steps[i - 1].Load? && states[i - 1].flight.Some? && states[i - 1].flight.value.id == id then 1 else 0
  }

  lemma {:induction false} AttemptsAreCounted(c: Config, states: seq<System>, steps: seq<Step>, i: nat, id: nat)
    requires c.Valid() && IsRun(c, states, steps) && i < |states|
    ensures states[i].flights <= id ==> LoadsBy(states, steps, i, id) == 0
    ensures var f := states[i].flight;
            f.Some? && f.value.id == id && f.value.stage.Loading? ==> LoadsBy(states, steps, i, id) == f.value.stage.attempt
  {
    if i > 0 {
      AttemptsAreCounted(c, states, steps, i - 1, id);
      RunKeeps(c, states, steps, i - 1);
      assert Enabled(c, states[i - 1], steps[i - 1]) && states[i - 1 + 1] == Apply(c, states[i - 1], steps[i - 1]);
    }
  }

  /**
   After an attempt a flight goes on to store what it loaded, or to the next attempt exactly if the failure was a
   passing one and it has made no more attempts than there are waits; otherwise it gives up with that failure.
   */
  lemma FlightsRetryExactlyWhen(c: Config, states: seq<System>, steps: seq<Step>, i: nat)
    requires c.Valid() && IsRun(c, states, steps) && i < |steps| && steps[i].Load?
    ensures states[i].flight.Some? && states[i + 1].flight.Some?
    ensures var stage, made := states[i + 1].flight.value.stage, LoadsBy(states, steps, i + 1, states[i].flight.value.id);
            match steps[i].loaded
            case Ok(keys) => stage == Loaded(keys)
            case Err(e) =>
              var passing := e == FetchFailed || (e.UnexpectedStatus? && (e.code == 429 || 500 <= e.code));
              if passing && made <= |c.backoff| then stage.Loading? && stage.failed == e else stage == GaveUp(e, false)
  {
    assert Enabled(c, states[i], steps[i]) && states[i + 1] == Apply(c, states[i], steps[i]);
    AttemptsAreCounted(c, states, steps, i, states[i].flight.value.id);
  }

  // ----- The exception is real -----

  lemma RunsOn(c: Config, states: seq<System>, steps: seq<Step>, step: Step)
    returns (states': seq<System>, steps': seq<Step>)
    requires IsRun(c, states, steps) && Enabled(c, states[|steps|], step)
    ensures IsRun(c, states', steps')
    ensures states' == states + [Apply(c, states[|steps|], step)] && steps' == steps + [step]
  {
    states' := states + [Apply(c, states[|steps|], step)];
    steps' := steps + [step];
  }

  /** The first caller has stored this document and is delayed before its flight lands. */
  function Delayed(c: Config, keys: Keys, now: int): System {
    System(now, State(keys, Some(c.cacheTTL), Some(0), None, None), [Document(keys, 0)], Some(Flight(0, 0, Stored(0))),
           map[], 1, map[0 := Leading("a", 0, None, 0)])
  }

  lemma FirstCallerStores(c: Config, keys: Keys) returns (states: seq<System>, steps: seq<Step>)
    ensures IsRun(c, states, steps) && states[|steps|] == Delayed(c, keys, 0)
  {
    states, steps := [INITIAL], [];
    states, steps := RunsOn(c, states, steps, Begin(0, "a"));
    states, steps := RunsOn(c, states, steps, CheckCache(0));
    states, steps := RunsOn(c, states, steps, Enter(0));
    states, steps := RunsOn(c, states, steps, Load(Ok(keys)));
    states, steps := RunsOn(c, states, steps, Store);
  }

  /**
   A caller can be told that a kid is unknown from a document stored any time of at least refreshCooldown before
   its call began: it joins the flight that stored it and has not landed yet.
   */
  lemma AnUnknownKeyFromAnOldDocument(c: Config, keys: Keys, delay: nat) returns (states: seq<System>, steps: seq<Step>)
    requires c.Valid() && "b" !in keys && c.refreshCooldown <= delay
    ensures IsRun(c, states, steps) && 1 in states[|steps|].callers
    ensures states[|steps|].callers[1].Done? && states[|steps|].callers[1].answer.UnknownKeyID?
    ensures states[|steps|].callers[1].start == delay && states[|steps|].documents == [Document(keys, 0)]
  {
    states, steps := FirstCallerStores(c, keys);
    states, steps := RunsOn(c, states, steps, Tick(delay));
    assert states[|steps|] == Delayed(c, keys, delay);
    states, steps := RunsOn(c, states, steps, Begin(1, "b"));
    states, steps := RunsOn(c, states, steps, CheckCache(1));
    states, steps := RunsOn(c, states, steps, Enter(1));
    states, steps := FlightLands(c, keys, states, steps);
  }

  lemma FlightLands(c: Config, keys: Keys, states: seq<System>, steps: seq<Step>)
    returns (states': seq<System>, steps': seq<Step>)
    requires IsRun(c, states, steps) && "b" !in keys
    requires var s := states[|steps|];
             s == Delayed(c, keys, s.now).(callers := map[0 := Leading("a", 0, None, 0),
                                                          1 := Waiting("b", s.now, Some(Flight(0, 0, Stored(0))), 0)])
    ensures IsRun(c, states', steps') && 1 in states'[|steps'|].callers
    ensures var now, r := states[|steps|].now, states'[|steps'|].callers[1];
            r.Done? && r.start == now && r.answer.UnknownKeyID? && states'[|steps'|].documents == [Document(keys, 0)]
  {
    states', steps' := RunsOn(c, states, steps, Land);
    states', steps' := RunsOn(c, states', steps', Wake(1));
    states', steps' := RunsOn(c, states', steps', LookUp(1));
  }
}
