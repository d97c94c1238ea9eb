/** The deprecation checker object: its cached response, its configurable
    properties, its start flag and the notifications it fires. */
module Checker {
  import opened Optional
  import opened JsonValue
  import opened KeyPath
  import opened DeprecationState

  /** What the request to the URL gave: a response parsed into a dictionary,
      or failure of the request, of the HTTP status or of JSON parsing (a body
      whose top level is not a JSON object cannot be a response dictionary,
      so it is a failure too). */
  datatype FetchOutcome = Fetched(response: map<string, Value>) | Failed

  /** A checker for one URL. The notification blocks are not run here: the
      counters record how many times each notification was fired (each firing
      dispatches the registered block, if any, once). */
  class Deprecation {
    const url: string
    /** The cached response with its expiry (persisted between launches). */
    var cache: Option<Entry>
    var timeToCacheResponse: int
    var keyPathToState: Option<string>
    var stringForOkState: Option<string>
    var stringForDeprecatedState: Option<string>
    var stringForEndOfLifeState: Option<string>
    var started: bool
    var hasStateChangeBlock: bool
    var hasResponseUpdateBlock: bool
    /** Requests made to the URL. */
    var requests: nat
    /** Response-update notifications fired. */
    var responseUpdates: nat
    /** State-change notifications fired. */
    var stateChanges: nat

    /** Every state change comes with a response update, every response update
        with a request, and no request is made before checking has begun. */
    ghost predicate Valid()
      reads this
    {
      && stateChanges <= responseUpdates <= requests
      && (!started ==> requests == 0)
    }

    /** The current configuration properties taken together. */
    function CurrentConfig(): Config
      reads this
    {
      Config(keyPathToState, stringForOkState, stringForDeprecatedState, stringForEndOfLifeState)
    }

    /** The `state` property as read at time `now`: Unknown unless the cached
        response is fresh, and a known state only when the key-path leads to
        that state's comparison string. */
    function State(now: int): (st: State)
      reads this
      ensures !IsFresh(cache, now) ==> st == Unknown
      ensures st != Unknown ==>
                && Resolve(Dict(cache.value.response), keyPathToState).Some?
                && ComparisonString(CurrentConfig(), st) == Resolve(Dict(cache.value.response), keyPathToState)
    {
      ReportedState(cache, now, CurrentConfig())
    }

    /** The `responseDictionary` property: the response currently cached.
        Without one the state is Unknown at every time; with one, the state at
        any time it is fresh is the state this dictionary gives. */
    function ResponseDictionary(): (r: Option<map<string, Value>>)
      reads this
      ensures r.None? ==> forall now :: State(now) == Unknown
      ensures r.Some? ==>
                forall now :: IsFresh(cache, now) ==> State(now) == StateOf(Dict(r.value), CurrentConfig())
    {
      match cache
      case None => None
      case Some(e) => Some(e.response)
    }

    /** A new checker for `url`, starting from the response persisted by an
        earlier launch, if any. Properties are unset and the time to cache
        responses is 24 hours. */
    constructor (url: string, persisted: Option<Entry>)
      ensures Valid()
      ensures this.url == url && cache == persisted
      ensures timeToCacheResponse == DefaultTimeToCacheResponse
      ensures CurrentConfig() == Config(None, None, None, None)
      ensures !started && !hasStateChangeBlock && !hasResponseUpdateBlock
      ensures requests == 0 && responseUpdates == 0 && stateChanges == 0
    {
      this.url := url;
      cache := persisted;
      timeToCacheResponse := DefaultTimeToCacheResponse;
      keyPathToState, stringForOkState := None, None;
      stringForDeprecatedState, stringForEndOfLifeState := None, None;
      started := false;
      hasStateChangeBlock, hasResponseUpdateBlock := false, false;
      requests, responseUpdates, stateChanges := 0, 0, 0;
    }

    /** Sets the time to cache responses from now on; the expiry of the
        response already cached stays where it was. */
    method SetTimeToCacheResponse(t: int)
      requires Valid()
      modifies this`timeToCacheResponse
      ensures Valid() && timeToCacheResponse == t
      ensures cache == old(cache)
      ensures forall now :: State(now) == old(State(now))
    {
      timeToCacheResponse := t;
    }

    /** Sets the key-path. The reported state may change; no notification fires. */
    method SetKeyPathToState(keyPath: Option<string>)
      requires Valid()
      modifies this`keyPathToState
      ensures Valid() && keyPathToState == keyPath
      ensures forall now :: State(now) == ReportedState(cache, now, old(CurrentConfig()).(keyPathToState := keyPath))
    {
      keyPathToState := keyPath;
    }

    /** Sets the Ok comparison string. The reported state may change; no notification fires. */
    method SetStringForOkState(s: Option<string>)
      requires Valid()
      modifies this`stringForOkState
      ensures Valid() && stringForOkState == s
      ensures forall now :: State(now) == ReportedState(cache, now, old(CurrentConfig()).(stringForOkState := s))
    {
      stringForOkState := s;
    }

    /** Sets the Deprecated comparison string. The reported state may change; no notification fires. */
    method SetStringForDeprecatedState(s: Option<string>)
      requires Valid()
      modifies this`stringForDeprecatedState
      ensures Valid() && stringForDeprecatedState == s
      ensures forall now :: State(now) == ReportedState(cache, now, old(CurrentConfig()).(stringForDeprecatedState := s))
    {
      stringForDeprecatedState := s;
    }

    /** Sets the End-Of-Life comparison string. The reported state may change; no notification fires. */
    method SetStringForEndOfLifeState(s: Option<string>)
      requires Valid()
      modifies this`stringForEndOfLifeState
      ensures Valid() && stringForEndOfLifeState == s
      ensures forall now :: State(now) == ReportedState(cache, now, old(CurrentConfig()).(stringForEndOfLifeState := s))
    {
      stringForEndOfLifeState := s;
    }

    /** Registers the block to dispatch when the state changes. */
    method OnStateChange()
      requires Valid()
      modifies this`hasStateChangeBlock
      ensures Valid() && hasStateChangeBlock
    {
      hasStateChangeBlock := true;
    }

    /** Registers the block to dispatch when a response is retrieved. */
    method OnResponseUpdate()
      requires Valid()
      modifies this`hasResponseUpdateBlock
      ensures Valid() && hasResponseUpdateBlock
    {
      hasResponseUpdateBlock := true;
    }

    /** What one check at time `now` does, from the state before it to the
        state after it. A response that has not expired is used as it is and
        no request is made. Otherwise the URL is requested and `outcome` is
        what came back: a failure leaves everything as it was, so the state
        reads Unknown; a response is cached until `now` plus the time to cache
        in effect now, fires the response-update notification, and fires the
        state-change notification exactly when it is fresh and gives a
        different state than the response it replaces. `nextCheck` is when the next check is due:
        the new expiry, never earlier, or at once when there is no fresh
        response. The configuration is not touched. */
    twostate predicate Checked(now: int, outcome: FetchOutcome, requested: bool, nextCheck: int)
      reads this
    {
      && (requested <==> !IsFresh(old(cache), now))
      && CurrentConfig() == old(CurrentConfig())
      && timeToCacheResponse == old(timeToCacheResponse)
      && requests == old(requests) + (if requested then 1 else 0)
      && (!requested || outcome.Failed? ==>
            && cache == old(cache) && responseUpdates == old(responseUpdates)
            && stateChanges == old(stateChanges))
      && (requested && outcome.Failed? ==> State(now) == Unknown)
      && (!requested ==> State(now) == old(State(now)))
      && (requested && outcome.Fetched? ==>
            && cache == Some(Entry(outcome.response, now + timeToCacheResponse))
            && responseUpdates == old(responseUpdates) + 1
            && stateChanges == old(stateChanges)
               + (if timeToCacheResponse > 0
                     && StateOf(Dict(outcome.response), CurrentConfig()) != EntryState(old(cache), CurrentConfig())
                  then 1 else 0)
            && State(now) == (if timeToCacheResponse > 0
                              then StateOf(Dict(outcome.response), CurrentConfig()) else Unknown))
      && nextCheck >= now
      && (IsFresh(cache, now) ==> nextCheck == cache.value.expiresAt)
      && (!IsFresh(cache, now) ==> nextCheck == now)
    }

    /** One scheduled check at time `now`, as `Checked` describes it. */
    method CheckCycle(now: int, outcome: FetchOutcome) returns (requested: bool, nextCheck: int)
      requires Valid() && started
      modifies this`cache, this`requests, this`responseUpdates, this`stateChanges
      ensures Valid() && Checked(now, outcome, requested, nextCheck)
    {
      requested := !IsFresh(cache, now);
      if requested {
        requests := requests + 1;
        match outcome
        case Fetched(response) =>
          var previous := EntryState(cache, CurrentConfig());
          cache := Some(Entry(response, now + timeToCacheResponse));
          responseUpdates := responseUpdates + 1;
          if timeToCacheResponse > 0 && StateOf(Dict(response), CurrentConfig()) != previous {
            stateChanges := stateChanges + 1;
          }
        case Failed =>
      }
      nextCheck := if IsFresh(cache, now) then cache.value.expiresAt else now;
    }

    /** Starts checking with a first check at `now`, as `Checked` describes
        it; once checking has begun, further calls change nothing and return
        None. */
    method BeginChecking(now: int, outcome: FetchOutcome) returns (nextCheck: Option<int>)
      requires Valid()
      modifies this`started, this`cache, this`requests, this`responseUpdates, this`stateChanges
      ensures Valid() && started
      ensures old(started) ==> nextCheck == None && unchanged(this)
      ensures !old(started) ==>
                nextCheck.Some? && Checked(now, outcome, !IsFresh(old(cache), now), nextCheck.value)
    {
      if started {
        nextCheck := None;
      } else {
        started := true;
        var _, next := CheckCycle(now, outcome);
        nextCheck := Some(next);
      }
    }
  }

  /** The expiry of a response is fixed by the time to cache in effect when it
      was requested: a successful check at `t` followed by a new time to cache
      still reads the response until `t` plus the old time to cache, and
      Unknown from then on. */
  method ExpiryFixedAtRequest(checker: Deprecation, t: int, response: map<string, Value>, newTimeToCache: int)
    requires checker.Valid() && checker.started && !IsFresh(checker.cache, t)
    modifies checker`cache, checker`requests, checker`responseUpdates, checker`stateChanges
    modifies checker`timeToCacheResponse
    ensures checker.Valid() && checker.timeToCacheResponse == newTimeToCache
    ensures forall n :: n < t + old(checker.timeToCacheResponse) ==>
              checker.State(n) == StateOf(Dict(response), checker.CurrentConfig())
    ensures forall n :: n >= t + old(checker.timeToCacheResponse) ==> checker.State(n) == Unknown
  {
    var _, _ := checker.CheckCycle(t, Fetched(response));
    checker.SetTimeToCacheResponse(newTimeToCache);
  }

  /** No redundant request: after a successful check at `t`, a later check at
      `n` requests the URL again exactly when `n` has reached `t` plus the time
      to cache in effect at `t`; before that it fires nothing and the state
      stays the one the response gives. */
  method NoRedundantFetch(checker: Deprecation, t: int, response: map<string, Value>, n: int, outcome: FetchOutcome)
    returns (requestedAgain: bool)
    requires checker.Valid() && checker.started && !IsFresh(checker.cache, t)
    requires t <= n
    modifies checker`cache, checker`requests, checker`responseUpdates, checker`stateChanges
    ensures checker.Valid()
    ensures requestedAgain <==> n >= t + old(checker.timeToCacheResponse)
    ensures checker.requests == old(checker.requests) + (if requestedAgain then 2 else 1)
    ensures !requestedAgain ==>
              && checker.cache == Some(Entry(response, t + old(checker.timeToCacheResponse)))
              && checker.responseUpdates == old(checker.responseUpdates) + 1
              && checker.stateChanges == old(checker.stateChanges)
                 + (if StateOf(Dict(response), checker.CurrentConfig())
                       != EntryState(old(checker.cache), checker.CurrentConfig()) then 1 else 0)
              && checker.State(n) == StateOf(Dict(response), checker.CurrentConfig())
  {
    var _, _ := checker.CheckCycle(t, Fetched(response));
    var nextCheck;
    requestedAgain, nextCheck := checker.CheckCycle(n, outcome);
  }

  /** A response that is already expired when it arrives (time to cache 0)
      leaves the state Unknown, so it fires response-update but no state change. */
  method ExpiredOnArrival(url: string, response: map<string, Value>, keyPath: string, ok: string)
    requires StateOf(Dict(response), Config(Some(keyPath), Some(ok), None, None)) == Ok
  {
    var checker := new Deprecation(url, None);
    checker.SetKeyPathToState(Some(keyPath));
    checker.SetStringForOkState(Some(ok));
    checker.SetTimeToCacheResponse(0);
    var next := checker.BeginChecking(0, Fetched(response));
    assert checker.State(0) == Unknown && next == Some(0);
    assert checker.responseUpdates == 1 && checker.stateChanges == 0;
  }

  /** A caller's view, from the contracts alone: a first launch whose request
      fails, a later response, a check before expiry, then a reconfiguration. */
  method UsageScenario(url: string, response: map<string, Value>, keyPath: string, deprecated: string, other: string)
    requires StateOf(Dict(response), Config(Some(keyPath), None, Some(deprecated), None)) == Deprecated
    requires other != deprecated
  {
    var checker := new Deprecation(url, None);
    checker.SetKeyPathToState(Some(keyPath));
    checker.SetStringForDeprecatedState(Some(deprecated));

    // The first request fails: nothing is cached, nothing fires, retry at once.
    var next := checker.BeginChecking(0, Failed);
    assert next == Some(0) && checker.cache == None && checker.stateChanges == 0;

    // Further calls to BeginChecking do nothing.
    next := checker.BeginChecking(5, Fetched(response));
    assert next == None && checker.requests == 1;

    // The retry succeeds: cached for 24 hours, and the state changes.
    var requested, due := checker.CheckCycle(10, Fetched(response));
    assert requested && due == 10 + DefaultTimeToCacheResponse;
    assert checker.State(10) == Deprecated && checker.stateChanges == 1;

    // Before expiry no request is made, whatever the network would say.
    requested, due := checker.CheckCycle(100, Failed);
    assert !requested && checker.State(100) == Deprecated;

    // Reconfiguring changes the reported state without any notification.
    checker.SetStringForDeprecatedState(Some(other));
    assert checker.State(100) == Unknown && checker.stateChanges == 1;
  }
}
