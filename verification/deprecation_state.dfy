/** The deprecation state, how it is derived from a response and the comparison
    strings, and when a cached response still counts. */
module DeprecationState {
  import opened Optional
  import opened JsonValue
  import opened KeyPath

  /** The four states, Unknown being the initial one and the fallback. */
  datatype State = Unknown | Ok | Deprecated | EndOfLife

  /** The configurable properties that decide how a response reads: the
      key-path to the state-string and the three strings it is compared with.
      An unset (nil) property is None and never matches. */
  datatype Config = Config(
    keyPathToState: Option<string>,
    stringForOkState: Option<string>,
    stringForDeprecatedState: Option<string>,
    stringForEndOfLifeState: Option<string>)

  /** Default time to cache a response: 24 hours, in seconds. */
  const DefaultTimeToCacheResponse: int := 24 * 60 * 60

  /** The comparison string configured for a state (None for Unknown). */
  function ComparisonString(cfg: Config, st: State): Option<string> {
    match st
    case Unknown => None
    case Ok => cfg.stringForOkState
    case Deprecated => cfg.stringForDeprecatedState
    case EndOfLife => cfg.stringForEndOfLifeState
  }

  /** Compares a found state-string with the comparison strings, exactly and
      in the order Ok, Deprecated, End-Of-Life; Unknown when nothing was found
      or nothing matches. */
  function Classify(found: Option<string>, cfg: Config): (st: State)
    ensures st == Ok <==> found.Some? && cfg.stringForOkState == found
    ensures st == Deprecated <==>
              found.Some? && cfg.stringForOkState != found && cfg.stringForDeprecatedState == found
    ensures st == EndOfLife <==>
              found.Some? && cfg.stringForOkState != found && cfg.stringForDeprecatedState != found
              && cfg.stringForEndOfLifeState == found
    ensures st == Unknown <==>
              found.None? || (cfg.stringForOkState != found && cfg.stringForDeprecatedState != found
                              && cfg.stringForEndOfLifeState != found)
  {
    if found.None? then Unknown
    else if cfg.stringForOkState == found then Ok
    else if cfg.stringForDeprecatedState == found then Deprecated
    else if cfg.stringForEndOfLifeState == found then EndOfLife
    else Unknown
  }

  /** All three comparison strings are set and different from each other. */
  predicate DistinctStrings(cfg: Config) {
    && cfg.stringForOkState.Some?
    && cfg.stringForDeprecatedState.Some?
    && cfg.stringForEndOfLifeState.Some?
    && cfg.stringForOkState != cfg.stringForDeprecatedState
    && cfg.stringForOkState != cfg.stringForEndOfLifeState
    && cfg.stringForDeprecatedState != cfg.stringForEndOfLifeState
  }

  /** With distinct comparison strings, each known state is reported for
      exactly its own string: classifying a state's string gives that state
      back, and a known classification names the string that was found. */
  lemma ClassifyRoundTrip(cfg: Config, st: State, found: Option<string>)
    requires DistinctStrings(cfg)
    ensures st != Unknown ==> Classify(ComparisonString(cfg, st), cfg) == st
    ensures Classify(found, cfg) != Unknown ==> ComparisonString(cfg, Classify(found, cfg)) == found
  {
  }

  /** The state a response gives under a configuration, regardless of expiry. */
  function StateOf(response: Value, cfg: Config): (st: State)
    ensures st != Unknown ==>
              Resolve(response, cfg.keyPathToState).Some?
              && ComparisonString(cfg, st) == Resolve(response, cfg.keyPathToState)
  {
    Classify(Resolve(response, cfg.keyPathToState), cfg)
  }

  /** A cached response dictionary and the time after which it no longer counts. */
  datatype Entry = Entry(response: map<string, Value>, expiresAt: int)

  /** The cached response is present and has not expired at `now`. */
  predicate IsFresh(cache: Option<Entry>, now: int) {
    cache.Some? && now < cache.value.expiresAt
  }

  /** The state of a cache slot regardless of expiry: Unknown when empty. */
  function EntryState(cache: Option<Entry>, cfg: Config): State {
    match cache
    case None => Unknown
    case Some(e) => StateOf(Dict(e.response), cfg)
  }

  /** The state the checker reports at `now`: derived afresh from the cached
      response and the current configuration; Unknown before any response,
      once the response has expired, and whenever the state-string is missing
      or matches no comparison string. */
  function ReportedState(cache: Option<Entry>, now: int, cfg: Config): (st: State)
    ensures !IsFresh(cache, now) ==> st == Unknown
    ensures st == Ok <==>
              IsFresh(cache, now) && Resolve(Dict(cache.value.response), cfg.keyPathToState).Some?
              && Resolve(Dict(cache.value.response), cfg.keyPathToState) == cfg.stringForOkState
    ensures st == Deprecated <==>
              IsFresh(cache, now) && Resolve(Dict(cache.value.response), cfg.keyPathToState).Some?
              && Resolve(Dict(cache.value.response), cfg.keyPathToState) != cfg.stringForOkState
              && Resolve(Dict(cache.value.response), cfg.keyPathToState) == cfg.stringForDeprecatedState
    ensures st == EndOfLife <==>
              IsFresh(cache, now) && Resolve(Dict(cache.value.response), cfg.keyPathToState).Some?
              && Resolve(Dict(cache.value.response), cfg.keyPathToState) != cfg.stringForOkState
              && Resolve(Dict(cache.value.response), cfg.keyPathToState) != cfg.stringForDeprecatedState
              && Resolve(Dict(cache.value.response), cfg.keyPathToState) == cfg.stringForEndOfLifeState
  {
    if IsFresh(cache, now) then EntryState(cache, cfg) else Unknown
  }

  /** The response shown in the class documentation, whose state-string
      "deprecated" sits at "deprecation_info.state". */
  function DocumentedResponse(): Value {
    Dict(map["deprecation_info" := Dict(map["state" := Str("deprecated")])])
  }

  /** The documented key-path splits into its two segments. */
  lemma DocumentedKeyPathSplits()
    ensures Split("deprecation_info.state") == ["deprecation_info", "state"]
  {
    var segs := ["deprecation_info", "state"];
    assert Join(segs) == "deprecation_info.state";
    assert NoDots(segs) by {
      assert '.' !in segs[0] && '.' !in segs[1];
    }
    SplitJoin(segs);
  }

  /** Two levels down the documented response is its state-string. */
  lemma DocumentedLookup()
    ensures Lookup(DocumentedResponse(), ["deprecation_info", "state"]) == Some("deprecated")
  {
    var inner := DocumentedResponse().members["deprecation_info"];
    assert Descend(inner, ["state"]) == Some(Str("deprecated"));
    assert Descend(DocumentedResponse(), ["deprecation_info", "state"]) == Descend(inner, ["state"]);
  }

  /** The documented key-path resolves to "deprecated" in the documented
      response, which reads as Deprecated when that is the deprecated string
      (and not also the Ok string). */
  lemma DocumentedExample(cfg: Config)
    requires cfg.keyPathToState == Some("deprecation_info.state")
    requires cfg.stringForOkState != Some("deprecated")
    requires cfg.stringForDeprecatedState == Some("deprecated")
    ensures Resolve(DocumentedResponse(), cfg.keyPathToState) == Some("deprecated")
    ensures StateOf(DocumentedResponse(), cfg) == Deprecated
  {
    DocumentedKeyPathSplits();
    DocumentedLookup();
  }

  /** A key-path whose last segment is missing from the documented response
      finds nothing, so the state reads Unknown. */
  lemma DocumentedMissingMember(cfg: Config)
    requires cfg.keyPathToState == Some("deprecation_info.missing")
    ensures Resolve(DocumentedResponse(), cfg.keyPathToState) == None
    ensures StateOf(DocumentedResponse(), cfg) == Unknown
  {
    var segs := ["deprecation_info", "missing"];
    assert Join(segs) == "deprecation_info.missing";
    assert NoDots(segs) by {
      assert '.' !in segs[0] && '.' !in segs[1];
    }
    SplitJoin(segs);
    var v := DocumentedResponse();
    assert Descend(v, ["deprecation_info"]) == Some(v.members["deprecation_info"]);
    LookupMissingKey(v, ["deprecation_info"], "missing", []);
    assert ["deprecation_info"] + ["missing"] + [] == segs;
  }
}
