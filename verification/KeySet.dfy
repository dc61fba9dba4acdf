/**
 The cached verification keys of the external IdP (internal/externaltoken/keyset.go): how long a document
 serves, when it is loaded again, and how often at most. Key calls run one at a time here. Times are
 integers; a zero time of the source is None.
 */
module KeySet {
  import opened Common
  import opened Jwks

  datatype LoadError = FetchFailed | UnexpectedStatus(code: int) | TooLarge | InvalidDocument

  /** Only these failures are worth another attempt. */
  predicate Transient(e: LoadError) {
    e.FetchFailed? || (e.UnexpectedStatus? && (e.code == 429 || e.code >= 500))
  }

  datatype Config = Config(cacheTTL: int, refreshCooldown: int, failureCooldown: int, backoff: seq<nat>) {
    predicate Valid() { 0 < cacheTTL && 0 < refreshCooldown && 0 < failureCooldown }
    function Shortest(): int {
      var c := if cacheTTL < refreshCooldown then cacheTTL else refreshCooldown;
      if c < failureCooldown then c else failureCooldown
    }
  }

  /** What one attempt of a refresh meets: whether the wait before it ran out, how long it took, what it loaded. */
  datatype Attempt = Attempt(waited: bool, took: nat, loaded: Result<Keys, LoadError>)

  /** What one refresh meets. A wait is only cut short when the caller's context is cancelled, and it stays so. */
  datatype World = World(attempts: seq<Attempt>, cancelled: bool) {
    ghost predicate Fits(c: Config) {
      && |attempts| == |c.backoff| + 1
      && forall i :: 0 < i < |attempts| && !attempts[i].waited ==> cancelled
    }
  }

  datatype State = State(keys: Keys, expiry: Option<int>, lastRefresh: Option<int>,
                         lastFailure: Option<int>, lastError: Option<LoadError>)

  const EMPTY := State(map[], None, None, None, None)

  datatype Answer = Found(key: PublicKey) | MissingKeyID | UnknownKeyID | Unavailable | FetchRequired

  /** now.Before(t); the zero time lies before every reading of the clock. */
  predicate Before(now: int, t: Option<int>) {
    t.Some? && now < t.value
  }

  /** now.Sub(t) < d; every reading of the clock is far from the zero time. */
  predicate Within(now: int, t: Option<int>, d: int) {
    t.Some? && now - t.value < d
  }

  /** What the state alone answers. */
  function Check(c: Config, s: State, kid: string, now: int): Answer {
    if Before(now, s.expiry) && kid in s.keys then Found(s.keys[kid])
    else if Before(now, s.expiry) && Within(now, s.lastRefresh, c.refreshCooldown) then UnknownKeyID
    else if Within(now, s.lastFailure, c.failureCooldown) then Unavailable
    else FetchRequired
  }

  /** The rest of a refresh from attempt i on: what it ends with, how many documents it loads, when it is done. */
  datatype Refreshed = Refreshed(outcome: Result<Keys, LoadError>, loads: nat, finish: int)

  function Attempts(c: Config, w: World, i: nat, now: int, failed: LoadError): Refreshed
    requires w.Fits(c) && i <= |w.attempts|
    decreases |w.attempts| - i
  {
    if i == |w.attempts| || (i > 0 && !w.attempts[i].waited) then Refreshed(Err(failed), 0, now) else
    var end := now + (if i > 0 then c.backoff[i - 1] else 0) + w.attempts[i].took;
    match w.attempts[i].loaded
    case Ok(keys) => Refreshed(Ok(keys), 1, end)
    case Err(e) =>
      if !Transient(e) then Refreshed(Err(e), 1, end) else
      var rest := Attempts(c, w, i + 1, end, e);
      rest.(loads := rest.loads + 1)
  }

  function RefreshOf(c: Config, w: World, start: int): Refreshed
    requires w.Fits(c)
  {
    Attempts(c, w, 0, start, FetchFailed)
  }

  function AfterRefresh(c: Config, s: State, w: World, r: Refreshed): State {
    match r.outcome
    case Ok(keys) => State(keys, Some(r.finish + c.cacheTTL), Some(r.finish), None, None)
    case Err(e) => if w.cancelled then s else s.(lastFailure := Some(r.finish), lastError := Some(e))
  }

  /** One call of Key: its answer, whether it loaded anything, and the state and instant it ends in. */
  datatype Called = Called(answer: Answer, loads: nat, state: State, finish: int)

  function CallOf(c: Config, s: State, kid: string, now: int, w: World): Called
    requires w.Fits(c)
  {
    if kid == "" then Called(Answer.MissingKeyID, 0, s, now) else
    var answer := Check(c, s, kid, now);
    if !answer.FetchRequired? then Called(answer, 0, s, now) else
    var r := RefreshOf(c, w, now);
    var after := AfterRefresh(c, s, w, r);
    Called(if r.outcome.Err? then Unavailable else if kid in after.keys then Found(after.keys[kid]) else UnknownKeyID,
           r.loads, after, r.finish)
  }

  class KeySet {
    const config: Config
    var keys: Keys
    var expiry: Option<int>
    var lastRefresh: Option<int>
    var lastFailure: Option<int>
    var lastError: Option<LoadError>

    function Abstract(): State
      reads this
    {
      State(keys, expiry, lastRefresh, lastFailure, lastError)
    }

    constructor (c: Config)
      ensures config == c && Abstract() == EMPTY
    {
      config := c;
      keys, expiry, lastRefresh, lastFailure, lastError := map[], None, None, None, None;
    }

    method Cached(kid: string, now: int) returns (answer: Answer)
      ensures answer == Check(config, Abstract(), kid, now)
    {
      if expiry.Some? && now < expiry.value {
        if kid in keys {
          return Found(keys[kid]);
        }
        if lastRefresh.Some? && now - lastRefresh.value < config.refreshCooldown {
          return UnknownKeyID;
        }
      }
      if lastFailure.Some? && now - lastFailure.value < config.failureCooldown {
        return Unavailable;
      }
      return FetchRequired;
    }

    method Store(loaded: Keys, now: int)
      modifies this
      ensures Abstract() == State(loaded, Some(now + config.cacheTTL), Some(now), None, None)
    {
      keys := loaded;
      expiry := Some(now + config.cacheTTL);
      lastRefresh := Some(now);
      lastFailure := None;
      lastError := None;
    }

    method RecordFailure(cancelled: bool, e: LoadError, now: int)
      modifies this
      ensures Abstract() == if cancelled then old(Abstract()) else old(Abstract()).(lastFailure := Some(now), lastError := Some(e))
    {
      if cancelled {
        return;
      }
      lastFailure := Some(now);
      lastError := Some(e);
    }

    method Refresh(w: World, start: int) returns (failed: bool, loads: nat, finish: int)
      requires w.Fits(config)
      modifies this
      ensures var r := RefreshOf(config, w, start);
              && Abstract() == AfterRefresh(config, old(Abstract()), w, r)
              && failed == r.outcome.Err? && loads == r.loads && finish == r.finish
    {
      var lastErr := FetchFailed;
      finish, loads := start, 0;
      for i := 0 to |config.backoff| + 1
        invariant Abstract() == old(Abstract())
        invariant var rest := Attempts(config, w, i, finish, lastErr);
                  RefreshOf(config, w, start) == rest.(loads := rest.loads + loads)
      {
        if i > 0 && !w.attempts[i].waited {
          break;
        }
        finish := finish + (if i > 0 then config.backoff[i - 1] else 0) + w.attempts[i].took;
        loads := loads + 1;
        match w.attempts[i].loaded {
          case Ok(loaded) =>
            Store(loaded, finish);
            return false, loads, finish;
          case Err(e) =>
            lastErr := e;
            if !Transient(e) {
              RecordFailure(w.cancelled, e, finish);
              return true, loads, finish;
            }
        }
      }
      RecordFailure(w.cancelled, lastErr, finish);
      return true, loads, finish;
    }

    method Key(kid: string, now: int, w: World) returns (answer: Answer, loads: nat, finish: int)
      requires w.Fits(config)
      modifies this
      ensures Called(answer, loads, Abstract(), finish) == CallOf(config, old(Abstract()), kid, now, w)
    {
      if kid == "" {
        return Answer.MissingKeyID, 0, now;
      }
      answer := Cached(kid, now);
      if !answer.FetchRequired? {
        return answer, 0, now;
      }
      var failed: bool;
      failed, loads, finish := Refresh(w, now);
      if failed {
        return Unavailable, loads, finish;
      }
      if kid !in keys {
        return UnknownKeyID, loads, finish;
      }
      return Found(keys[kid]), loads, finish;
    }
  }

  // ----- Settings -----

  const DEFAULT_CACHE_TTL := 300_000_000_000
  const DEFAULT_REFRESH_COOLDOWN := 30_000_000_000
  const DEFAULT_FAILURE_COOLDOWN := 5_000_000_000
  const DEFAULT_RETRY_BACKOFF: seq<nat> := [100_000_000, 200_000_000]

  /** What is configured; a backoff that is not is None. */
  datatype Settings = Settings(absoluteURL: bool, cacheTTL: int, refreshCooldown: int, failureCooldown: int, backoff: Option<seq<int>>)
  datatype SettingsError = InvalidURL | InvalidRetryBackoff

  function OrDefault(value: int, fallback: int): int {
    if value <= 0 then fallback else value
  }

  /** The configuration these settings stand for. */
  function Configured(s: Settings): Config
    requires !NegativeDelay(s)
  {
    Config(OrDefault(s.cacheTTL, DEFAULT_CACHE_TTL), OrDefault(s.refreshCooldown, DEFAULT_REFRESH_COOLDOWN),
           OrDefault(s.failureCooldown, DEFAULT_FAILURE_COOLDOWN),
           if s.backoff.None? then DEFAULT_RETRY_BACKOFF else s.backoff.value)
  }

  predicate NegativeDelay(s: Settings) {
    s.backoff.Some? && exists i :: 0 <= i < |s.backoff.value| && s.backoff.value[i] < 0
  }

  method RetryBackoff(configured: Option<seq<int>>) returns (backoff: Option<seq<nat>>)
    ensures backoff.None? <==> configured.Some? && exists i :: 0 <= i < |configured.value| && configured.value[i] < 0
    ensures backoff.Some? ==> backoff.value == if configured.None? then DEFAULT_RETRY_BACKOFF else configured.value
  {
    if configured.None? {
      return Some(DEFAULT_RETRY_BACKOFF);
    }
    for i := 0 to |configured.value|
      invariant forall j :: 0 <= j < i ==> 0 <= configured.value[j]
    {
      if configured.value[i] < 0 {
        return None;
      }
    }
    return Some(configured.value);
  }

  /** Only a bad URL or a negative delay is refused; durations that are not positive take their defaults. */
  method NewKeySet(s: Settings) returns (made: Result<KeySet, SettingsError>)
    ensures made == Err(InvalidURL) <==> !s.absoluteURL
    ensures made == Err(InvalidRetryBackoff) <==> s.absoluteURL && NegativeDelay(s)
    ensures made.Ok? ==> fresh(made.value) && made.value.Abstract() == EMPTY && made.value.config.Valid()
    ensures made.Ok? ==>
              var c := made.value.config;
              && (if s.cacheTTL > 0 then c.cacheTTL == s.cacheTTL else c.cacheTTL == 300_000_000_000)
              && (if s.refreshCooldown > 0 then c.refreshCooldown == s.refreshCooldown else c.refreshCooldown == 30_000_000_000)
              && (if s.failureCooldown > 0 then c.failureCooldown == s.failureCooldown else c.failureCooldown == 5_000_000_000)
              && (if s.backoff.Some? then c.backoff == s.backoff.value else c.backoff == [100_000_000, 200_000_000])
  {
    if !s.absoluteURL {
      return Err(InvalidURL);
    }
    var backoff := RetryBackoff(s.backoff);
    if backoff.None? {
      return Err(InvalidRetryBackoff);
    }
    var keySet := new KeySet(Config(OrDefault(s.cacheTTL, DEFAULT_CACHE_TTL), OrDefault(s.refreshCooldown, DEFAULT_REFRESH_COOLDOWN),
                                    OrDefault(s.failureCooldown, DEFAULT_FAILURE_COOLDOWN), backoff.value));
    return Ok(keySet);
  }

  // ----- Runs of Key calls, one at a time -----

  datatype Call = Call(kid: string, now: int, world: World)

  ghost function Outcome(c: Config, calls: seq<Call>, i: nat): Called
    requires Fitting(c, calls) && i < |calls|
  {
    CallOf(c, StateBefore(c, calls, i), calls[i].kid, calls[i].now, calls[i].world)
  }

  ghost predicate Fitting(c: Config, calls: seq<Call>) {
    forall i :: 0 <= i < |calls| ==> calls[i].world.Fits(c)
  }

  ghost function StateBefore(c: Config, calls: seq<Call>, i: nat): State
    requires Fitting(c, calls) && i <= |calls|
  {
    if i == 0 then EMPTY else
    CallOf(c, StateBefore(c, calls, i - 1), calls[i - 1].kid, calls[i - 1].now, calls[i - 1].world).state
  }

  /** A run: every call starts when the previous one is done, on a clock that never goes back. */
  ghost predicate Sequential(c: Config, calls: seq<Call>) {
    && Fitting(c, calls)
    && forall i :: 0 < i < |calls| ==> Outcome(c, calls, i - 1).finish <= calls[i].now
  }

  lemma {:induction false} AttemptsTakeTime(c: Config, w: World, i: nat, now: int, failed: LoadError)
    requires w.Fits(c) && i <= |w.attempts|
    ensures now <= Attempts(c, w, i, now, failed).finish
    ensures Attempts(c, w, i, now, failed).loads <= |w.attempts| - i
    ensures i == 0 ==> 1 <= Attempts(c, w, i, now, failed).loads
    decreases |w.attempts| - i
  {
    if !(i == |w.attempts| || (i > 0 && !w.attempts[i].waited)) {
      var end := now + (if i > 0 then c.backoff[i - 1] else 0) + w.attempts[i].took;
      if w.attempts[i].loaded.Err? {
        AttemptsTakeTime(c, w, i + 1, end, w.attempts[i].loaded.error);
      }
    }
  }

  /** The document stored last by the first n calls, and when: what the IdP served, not what the state says. */
  ghost function LastDocument(c: Config, calls: seq<Call>, n: nat): Option<(Keys, int)>
    requires Fitting(c, calls) && n <= |calls|
  {
    if n == 0 then None else
    var call := calls[n - 1];
    var r := RefreshOf(c, call.world, call.now);
    if Outcome(c, calls, n - 1).loads > 0 && r.outcome.Ok? then Some((r.outcome.value, r.finish))
    else LastDocument(c, calls, n - 1)
  }

  /** The state holds exactly the last document and serves it for cacheTTL. */
  lemma {:induction false} StateHoldsLastDocument(c: Config, calls: seq<Call>, n: nat)
    requires Fitting(c, calls) && n <= |calls|
    ensures var s := StateBefore(c, calls, n);
            match LastDocument(c, calls, n)
            case None => s.keys == map[] && s.expiry == None && s.lastRefresh == None
            case Some((keys, at)) => s.keys == keys && s.expiry == Some(at + c.cacheTTL) && s.lastRefresh == Some(at)
  {
    if n > 0 {
      StateHoldsLastDocument(c, calls, n - 1);
      AttemptsTakeTime(c, calls[n - 1].world, 0, calls[n - 1].now, FetchFailed);
    }
  }

  /**
   A returned key is the one the last stored document has for that kid, and that document was stored during
   the call or less than cacheTTL before it. "Unknown kid" is only said of a document that has no such kid and
   was stored during the call or less than refreshCooldown before it.
   */
  lemma AnswersAreFresh(c: Config, calls: seq<Call>, i: nat)
    requires c.Valid() && Fitting(c, calls) && i < |calls|
    ensures var called, call, document := Outcome(c, calls, i), calls[i], LastDocument(c, calls, i + 1);
            && (called.answer.Found? ==>
                  && document.Some? && call.kid in document.value.0 && document.value.0[call.kid] == called.answer.key
                  && (call.now <= document.value.1 <= called.finish || call.now - document.value.1 < c.cacheTTL))
            && (called.answer.UnknownKeyID? ==>
                  && document.Some? && call.kid !in document.value.0
                  && (call.now <= document.value.1 <= called.finish || call.now - document.value.1 < c.refreshCooldown))
  {
    StateHoldsLastDocument(c, calls, i);
    StateHoldsLastDocument(c, calls, i + 1);
    AttemptsTakeTime(c, calls[i].world, 0, calls[i].now, FetchFailed);
  }

  /** The keys and their expiry change only by storing a loaded document; a cancelled failure leaves no trace at all. */
  lemma FailureKeepsTheKeys(c: Config, s: State, kid: string, now: int, w: World)
    requires w.Fits(c)
    ensures var called := CallOf(c, s, kid, now, w);
            && (called.state.keys != s.keys || called.state.expiry != s.expiry || called.state.lastRefresh != s.lastRefresh ==>
                  called.loads > 0 && RefreshOf(c, w, now).outcome == Ok(called.state.keys))
            && (called.answer.Unavailable? ==> called.state.keys == s.keys && called.state.expiry == s.expiry)
            && (called.answer.Unavailable? && w.cancelled ==> called.state == s)
  {
    AttemptsTakeTime(c, w, 0, now, FetchFailed);
  }

  // ----- What each call answers, by what was loaded and what failed -----

  /** The failure that starts the last cooldown: of a refresh that was not cancelled and with no document stored since. */
  ghost function LastFailure(c: Config, calls: seq<Call>, n: nat): Option<(int, LoadError)>
    requires Fitting(c, calls) && n <= |calls|
  {
    if n == 0 then None else
    var call := calls[n - 1];
    var r := RefreshOf(c, call.world, call.now);
    if Outcome(c, calls, n - 1).loads == 0 then LastFailure(c, calls, n - 1)
    else if r.outcome.Ok? then None
    else if call.world.cancelled then LastFailure(c, calls, n - 1)
    else Some((r.finish, r.outcome.error))
  }

  lemma {:induction false} StateHoldsLastFailure(c: Config, calls: seq<Call>, n: nat)
    requires Fitting(c, calls) && n <= |calls|
    ensures var s := StateBefore(c, calls, n);
            match LastFailure(c, calls, n)
            case None => s.lastFailure == None && s.lastError == None
            case Some((at, e)) => s.lastFailure == Some(at) && s.lastError == Some(e)
  {
    if n > 0 {
      StateHoldsLastFailure(c, calls, n - 1);
      AttemptsTakeTime(c, calls[n - 1].world, 0, calls[n - 1].now, FetchFailed);
    }
  }

  /** The document is still served. */
  ghost predicate Serves(c: Config, document: Option<(Keys, int)>, now: int) {
    document.Some? && now - document.value.1 < c.cacheTTL
  }

  /** The call is answered by the document it has: it holds the kid and is young enough. */
  ghost predicate Holds(c: Config, document: Option<(Keys, int)>, kid: string, now: int) {
    Serves(c, document, now) && kid in document.value.0
  }

  /** The call is turned away by the document it has: it does not hold the kid and was only just refreshed. */
  ghost predicate Lacks(c: Config, document: Option<(Keys, int)>, kid: string, now: int) {
    Serves(c, document, now) && kid !in document.value.0 && now - document.value.1 < c.refreshCooldown
  }

  ghost predicate CoolsDown(c: Config, failure: Option<(int, LoadError)>, now: int) {
    failure.Some? && now - failure.value.0 < c.failureCooldown
  }

  /**
   A call without a kid is refused. Any other is answered without loading anything exactly by what the last document
   holds, whatever has failed since; if that says nothing, it is turned away exactly while the last failure cools
   down, and loads otherwise.
   */
  lemma CallsAnswerExactlyAs(c: Config, calls: seq<Call>, i: nat)
    requires c.Valid() && Fitting(c, calls) && i < |calls|
    ensures var call, called, document, failure := calls[i], Outcome(c, calls, i), LastDocument(c, calls, i), LastFailure(c, calls, i);
            if call.kid == "" then called.answer == Answer.MissingKeyID && called.loads == 0
            else if Holds(c, document, call.kid, call.now) then
              called.answer == Found(document.value.0[call.kid]) && called.loads == 0
            else if Lacks(c, document, call.kid, call.now) then called.answer == UnknownKeyID && called.loads == 0
            else if CoolsDown(c, failure, call.now) then called.answer == Unavailable && called.loads == 0
            else
              && called.loads > 0
              && match RefreshOf(c, call.world, call.now).outcome
                 case Err(_) => called.answer == Unavailable
                 case Ok(keys) => called.answer == if call.kid in keys then Found(keys[call.kid]) else UnknownKeyID
  {
    StateHoldsLastDocument(c, calls, i);
    StateHoldsLastFailure(c, calls, i);
    AttemptsTakeTime(c, calls[i].world, 0, calls[i].now, FetchFailed);
  }

  /** A held key is served without loading exactly while its document is young enough, so it is never unavailable then. */
  lemma HeldKeysAreServedExactlyWhen(c: Config, calls: seq<Call>, i: nat)
    requires c.Valid() && Fitting(c, calls) && i < |calls|
    ensures var call, called, document := calls[i], Outcome(c, calls, i), LastDocument(c, calls, i);
            && (called.answer.Found? && called.loads == 0 <==>
                  call.kid != "" && document.Some? && call.kid in document.value.0 && call.now - document.value.1 < c.cacheTTL)
            && (called.answer.Unavailable? ==>
                  document.None? || call.kid !in document.value.0 || c.cacheTTL <= call.now - document.value.1)
  {
    CallsAnswerExactlyAs(c, calls, i);
  }

  // ----- What one refresh does -----

  /** The time the first n attempts of a refresh and the waits before them take. */
  ghost function Elapsed(c: Config, w: World, n: nat): nat
    requires w.Fits(c) && n <= |w.attempts|
  {
    if n == 0 then 0 else Elapsed(c, w, n - 1) + w.attempts[n - 1].took + if n > 1 then c.backoff[n - 2] else 0
  }

  /** Network failures, 429 and 5xx are passing, everything else lasts. */
  lemma PassingFailures(code: int)
    ensures Transient(FetchFailed) && !Transient(TooLarge) && !Transient(InvalidDocument)
    ensures Transient(UnexpectedStatus(code)) <==> code == 429 || 500 <= code
  {
  }

  ghost predicate Passing(loaded: Result<Keys, LoadError>) {
    loaded.Err? && Transient(loaded.error)
  }

  /** Attempts from i on end at attempt n: every earlier one failed passingly, every wait ran out, and n is the last or needs no other. */
  ghost predicate EndsAt(c: Config, w: World, i: nat, n: nat)
    requires w.Fits(c)
  {
    && i <= n <= |w.attempts|
    && (forall j :: i <= j < n ==> j == 0 || w.attempts[j].waited)
    && (forall j :: i <= j < n - 1 ==> Passing(w.attempts[j].loaded))
    && (n == |w.attempts| || (n > i && !Passing(w.attempts[n - 1].loaded)) || (n > 0 && !w.attempts[n].waited))
  }

  lemma {:induction false} AttemptsExactly(c: Config, w: World, i: nat, now: int, failed: LoadError)
    requires w.Fits(c) && i <= |w.attempts|
    ensures var r := Attempts(c, w, i, now, failed);
            && i + r.loads <= |w.attempts|
            && EndsAt(c, w, i, i + r.loads)
            && r.outcome == (if r.loads == 0 then Err(failed) else w.attempts[i + r.loads - 1].loaded)
            && r.finish == now + Elapsed(c, w, i + r.loads) - Elapsed(c, w, i)
    decreases |w.attempts| - i
  {
    if !(i == |w.attempts| || (i > 0 && !w.attempts[i].waited)) {
      var end := now + (if i > 0 then c.backoff[i - 1] else 0) + w.attempts[i].took;
      assert Elapsed(c, w, i + 1) - Elapsed(c, w, i) == end - now;
      if Passing(w.attempts[i].loaded) {
        AttemptsExactly(c, w, i + 1, end, w.attempts[i].loaded.error);
      }
    }
  }

  /**
   A refresh makes one attempt and goes on exactly after passing failures, as long as there are attempts left and the
   wait before the next runs out. It ends with what the last attempt loaded, after the time all of them took.
   */
  lemma RefreshesExactly(c: Config, w: World, start: int)
    requires w.Fits(c)
    ensures var r := RefreshOf(c, w, start);
            && 1 <= r.loads <= |c.backoff| + 1 && EndsAt(c, w, 0, r.loads)
            && r.outcome == w.attempts[r.loads - 1].loaded
            && r.finish == start + Elapsed(c, w, r.loads)
  {
    AttemptsExactly(c, w, 0, start, FetchFailed);
    AttemptsTakeTime(c, w, 0, start, FetchFailed);
  }

  // ----- How often documents are loaded -----

  /** When the latest refresh that was not cancelled ended. */
  function LatestRefresh(s: State): Option<int> {
    if s.lastFailure.Some? then s.lastFailure else s.lastRefresh
  }

  /** A refresh starts no sooner than the shortest of the three delays after the previous one ended. */
  lemma RefreshesAreSpaced(c: Config, calls: seq<Call>, i: nat)
    requires c.Valid() && Fitting(c, calls) && i < |calls| && Outcome(c, calls, i).loads > 0
    ensures var latest := LatestRefresh(StateBefore(c, calls, i));
            latest.Some? ==> c.Shortest() <= calls[i].now - latest.value
  {
    StateHoldsLastDocument(c, calls, i);
  }

  predicate InWindow(call: Call, from: int, width: nat) {
    from <= call.now <= from + width
  }

  /** Refreshes started in the window by the first n calls. */
  ghost function RefreshesIn(c: Config, calls: seq<Call>, n: nat, from: int, width: nat): nat
    requires Fitting(c, calls) && n <= |calls|
  {
    if n == 0 then 0 else
    RefreshesIn(c, calls, n - 1, from, width)
    + (if InWindow(calls[n - 1], from, width) && Outcome(c, calls, n - 1).loads > 0 then 1 else 0)
  }

  /** Documents loaded by those refreshes. */
  ghost function LoadsIn(c: Config, calls: seq<Call>, n: nat, from: int, width: nat): nat
    requires Fitting(c, calls) && n <= |calls|
  {
    if n == 0 then 0 else
    LoadsIn(c, calls, n - 1, from, width)
    + (if InWindow(calls[n - 1], from, width) then Outcome(c, calls, n - 1).loads else 0)
  }

  lemma {:induction false} LoadsPerRefresh(c: Config, calls: seq<Call>, n: nat, from: int, width: nat)
    requires Fitting(c, calls) && n <= |calls|
    ensures LoadsIn(c, calls, n, from, width) <= RefreshesIn(c, calls, n, from, width) * (|c.backoff| + 1)
  {
    if n > 0 {
      LoadsPerRefresh(c, calls, n - 1, from, width);
      AttemptsTakeTime(c, calls[n - 1].world, 0, calls[n - 1].now, FetchFailed);
      var before, here := RefreshesIn(c, calls, n - 1, from, width), |c.backoff| + 1;
      assert (before + 1) * here == before * here + here;
    }
  }

  /** The k-th refresh of a window starts at least k-1 delays into it. */
  ghost predicate Spread(k: nat, delay: int, from: int, width: nat, latest: Option<int>) {
    k > 0 ==> (k - 1) * delay <= width && latest.Some? && from + (k - 1) * delay <= latest.value
  }

  lemma SpreadOneMore(k: nat, delay: int, from: int, width: nat, latest: Option<int>, start: int, finish: int, counted: bool)
    requires Spread(k, delay, from, width, latest) && 0 < delay && (latest.Some? ==> delay <= start - latest.value)
    requires start <= finish && (counted ==> from <= start <= from + width)
    ensures Spread(k + if counted then 1 else 0, delay, from, width, Some(finish))
  {
    assert k * delay == (k - 1) * delay + delay;
    assert k == 0 ==> k * delay == 0;
  }

  lemma {:induction false} RefreshesSpread(c: Config, calls: seq<Call>, n: nat, from: int, width: nat)
    requires c.Valid() && Sequential(c, calls) && n <= |calls|
    requires forall i :: 0 <= i < |calls| ==> !calls[i].world.cancelled
    ensures Spread(RefreshesIn(c, calls, n, from, width), c.Shortest(), from, width, LatestRefresh(StateBefore(c, calls, n)))
  {
    if n > 0 {
      RefreshesSpread(c, calls, n - 1, from, width);
      SpreadAfterCall(c, calls, n - 1, from, width);
    }
  }

  lemma SpreadAfterCall(c: Config, calls: seq<Call>, i: nat, from: int, width: nat)
    requires c.Valid() && Sequential(c, calls) && i < |calls| && !calls[i].world.cancelled
    requires Spread(RefreshesIn(c, calls, i, from, width), c.Shortest(), from, width, LatestRefresh(StateBefore(c, calls, i)))
    ensures Spread(RefreshesIn(c, calls, i + 1, from, width), c.Shortest(), from, width, LatestRefresh(StateBefore(c, calls, i + 1)))
  {
    var called, k := Outcome(c, calls, i), RefreshesIn(c, calls, i, from, width);
    if called.loads > 0 {
      LatestAfterRefresh(c, calls, i);
      SpreadOneMore(k, c.Shortest(), from, width, LatestRefresh(StateBefore(c, calls, i)), calls[i].now, called.finish,
                    InWindow(calls[i], from, width));
    } else {
      NoLoadsNoChange(c, StateBefore(c, calls, i), calls[i]);
      assert StateBefore(c, calls, i + 1) == StateBefore(c, calls, i);
      assert RefreshesIn(c, calls, i + 1, from, width) == k;
    }
  }

  /** A call that loads nothing changes nothing. */
  lemma NoLoadsNoChange(c: Config, s: State, call: Call)
    requires call.world.Fits(c)
    ensures var called := CallOf(c, s, call.kid, call.now, call.world);
            called.loads == 0 ==> called.state == s && called.finish == call.now
  {
    AttemptsTakeTime(c, call.world, 0, call.now, FetchFailed);
  }

  /** A refresh that is not cancelled moves the latest refresh to its own end, after its own start. */
  lemma LatestAfterRefresh(c: Config, calls: seq<Call>, i: nat)
    requires c.Valid() && Sequential(c, calls) && i < |calls|
    requires !calls[i].world.cancelled && Outcome(c, calls, i).loads > 0
    ensures LatestRefresh(StateBefore(c, calls, i + 1)) == Some(Outcome(c, calls, i).finish)
    ensures calls[i].now <= Outcome(c, calls, i).finish
    ensures var latest := LatestRefresh(StateBefore(c, calls, i));
            latest.Some? ==> c.Shortest() <= calls[i].now - latest.value
  {
    RefreshesAreSpaced(c, calls, i);
    AttemptsTakeTime(c, calls[i].world, 0, calls[i].now, FetchFailed);
  }

  lemma Product(a: int, b: int, d: int)
    requires 0 <= d
    ensures a <= b ==> a * d <= b * d
  {
    if a <= b {
      assert b * d == a * d + (b - a) * d;
      assert 0 <= (b - a) * d;
    }
  }

  lemma QuotientBound(k: nat, d: int, width: nat)
    requires 0 < d && k * d <= width
    ensures k <= width / d
  {
    Product(width / d + 1, k, d);
    assert width < (width / d + 1) * d;
  }

  lemma SpreadBoundsLoads(k: nat, delay: int, from: int, width: nat, latest: Option<int>, attempts: nat)
    requires Spread(k, delay, from, width, latest) && 0 < delay
    ensures k * attempts <= (width / delay + 1) * attempts
  {
    if k > 0 {
      QuotientBound(k - 1, delay, width);
    }
    Product(k, width / delay + 1, attempts);
  }

  /**
   Key calls run one at a time and without cancelled contexts load, in refreshes started within any window, at
   most (width / c + 1) * (len(backoff) + 1) documents, c being the shortest of the three delays.
   */
  lemma LoadsAreBounded(c: Config, calls: seq<Call>, from: int, width: nat)
    requires c.Valid() && Sequential(c, calls)
    requires forall i :: 0 <= i < |calls| ==> !calls[i].world.cancelled
    ensures LoadsIn(c, calls, |calls|, from, width) <= (width / c.Shortest() + 1) * (|c.backoff| + 1)
  {
    LoadsPerRefresh(c, calls, |calls|, from, width);
    RefreshesSpread(c, calls, |calls|, from, width);
    SpreadBoundsLoads(RefreshesIn(c, calls, |calls|, from, width), c.Shortest(), from, width,
                      LatestRefresh(StateBefore(c, calls, |calls|)), |c.backoff| + 1);
  }
}
