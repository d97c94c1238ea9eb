# JADeprecation, modelled in Dafny

`JADeprecation` checks a URL, periodically, for the deprecation state of
something (an app, an API, a feature). The URL answers with JSON; a
dot-separated key-path (`keyPathToState`) picks a state-string out of it. That
string is compared with three configured strings (`stringForOkState`,
`stringForDeprecatedState`, `stringForEndOfLifeState`), giving one of the four
states Unknown, Ok, Deprecated and EndOfLife. The response is cached, and kept
across launches, for `timeToCacheResponse` seconds (24 hours by default). Only
when it has expired is the URL asked again. Registered blocks are dispatched
when a new response arrives and when it changes the state.

The project has five modules:

- `Optional` (optional.dfy): a value that may be absent; `None` also stands
  for an unset (`nil`) property.
- `JsonValue` (json_value.dfy): the parsed response. A value is a string, a
  dictionary of named members, or some other JSON value.
- `KeyPath` (key_path.dfy): splitting a key-path at `.` and descending one
  dictionary level per segment. Both are pure functions, with round-trip and
  "not found" lemmas.
- `DeprecationState` (deprecation_state.dfy): the state enumeration, the
  configuration, the comparison of the state-string, cache entries with a fixed
  expiry, and the state reported at a given time. The documented
  `"deprecation_info.state"` example is proved here.
- `Checker` (checker.dfy): the class `Deprecation`. It holds the cached
  response, the configurable properties, the started flag, and counters for
  requests and fired notifications. Its methods are the property setters,
  `OnStateChange`, `OnResponseUpdate`, `BeginChecking` and `CheckCycle`, one
  scheduled check.

Design decisions where the documentation leaves room:

- Time is a whole number of seconds. `CheckCycle` and `BeginChecking` take the
  current time as a parameter, and `State(now)` reads the state at a given time.
- The outcome of the request is also a parameter of `CheckCycle`. It is either
  a response dictionary or a failure (request, HTTP status or JSON parsing).
  A body whose top level is not a JSON object cannot become the
  `responseDictionary`, so it counts as a failure.
- Unset string properties are `None`, and `None` never matches. An empty
  key-path finds nothing.
- The state-change notification compares the new response's state with the
  state the replaced response gives, expired or not, under the current
  configuration. An empty cache counts as Unknown. This is why a refresh that
  returns the same state fires nothing (JADeprecation/JADeprecation.h:153-155).
  It is also why a response persisted by an earlier launch counts as the
  previous state. So the model keeps no separate "last notified state"; it is
  always the state of the replaced response. A new response that is already
  expired when it arrives (a time to cache of 0 or less) reads as Unknown and
  fires no state change.
- A fired notification is counted once, whether or not a block is registered.
  The registration itself is a flag.

## Model

| member | source | states |
|---|---|---|
| KeyPath.Split | JADeprecation/JADeprecation.h:33-35 | a key-path splits into at least one segment, and no segment contains a dot |
| KeyPath.JoinSplit | JADeprecation/JADeprecation.h:97-102 | splitting a key-path loses nothing: joining the segments with dots gives the key-path back |
| KeyPath.SplitJoin | JADeprecation/JADeprecation.h:97-102 | dot-free segments joined with dots split back into exactly those segments |
| KeyPath.Resolve | JADeprecation/JADeprecation.h:33-42 | a state-string is found only when the split key-path leads, through nested dictionaries, to a string; an unset or empty key-path finds nothing |
| KeyPath.DescendAppend | JADeprecation/JADeprecation.h:33-42 | following `p + q` means following `p` and then `q` from where `p` ended |
| KeyPath.LookupStep | JADeprecation/JADeprecation.h:33-42 | each segment descends exactly one dictionary level: the first picks a member and the rest is looked up inside it |
| KeyPath.LookupMissingKey | JADeprecation/JADeprecation.h:54-56 | a segment missing from the dictionary reached so far means not found, whatever follows |
| KeyPath.LookupThroughNonDict | JADeprecation/JADeprecation.h:54-56 | a segment applied to a string or other non-dictionary value means not found, whatever follows |
| KeyPath.DescendNest | JADeprecation/JADeprecation.h:33-42 | following the segments a value was nested by reaches that value |
| KeyPath.ResolveNest | JADeprecation/JADeprecation.h:33-42 | a state-string placed at a non-empty key-path is found at that key-path |
| DeprecationState.Classify | JADeprecation/JADeprecation.h:44-46 | Ok, Deprecated and EndOfLife each hold exactly when the found string equals that state's comparison string and no earlier one; Unknown when nothing was found or nothing matches |
| DeprecationState.ClassifyRoundTrip | JADeprecation/JADeprecation.h:104-123 | with three distinct comparison strings, a state's own string reads as that state, and a known state names the string that was found |
| DeprecationState.StateOf | JADeprecation/JADeprecation.h:44-46 | a known state is reported only when the key-path resolves to that state's comparison string |
| DeprecationState.ReportedState | JADeprecation/JADeprecation.h:54-56 | Unknown with no response or an expired one; otherwise Ok, Deprecated or EndOfLife exactly when the state-string at the key-path equals the matching comparison string |
| DeprecationState.DocumentedKeyPathSplits | JADeprecation/JADeprecation.h:35 | `"deprecation_info.state"` splits into `deprecation_info` and `state` |
| DeprecationState.DocumentedExample | JADeprecation/JADeprecation.h:35-45 | in the documented response the documented key-path finds `"deprecated"`, which reads as Deprecated |
| DeprecationState.DocumentedMissingMember | JADeprecation/JADeprecation.h:54-56 | in the documented response a key-path to a missing member finds nothing and reads as Unknown |
| Checker.Deprecation.State | JADeprecation/JADeprecation.h:77-80 | the `state` property is Unknown unless the cached response is fresh, and a known state only when the key-path leads to that state's comparison string |
| Checker.Deprecation.ResponseDictionary | JADeprecation/JADeprecation.h:82-88 | with no cached dictionary the state is Unknown at every time; with one, the state at any fresh time is the state that dictionary gives |
| Checker.Deprecation.constructor | JADeprecation/JADeprecation.h:128-141 | a new checker keeps the persisted entry, caches for 86400 seconds, has no properties set, has not started and has fired nothing |
| Checker.Deprecation.SetTimeToCacheResponse | JADeprecation/JADeprecation.h:50 | a new time-to-cache does not move the expiry of the cached response and does not change the reported state |
| Checker.Deprecation.SetKeyPathToState | JADeprecation/JADeprecation.h:150-151 | the reported state becomes the one the new key-path gives; no notification fires and nothing is requested |
| Checker.Deprecation.SetStringForOkState | JADeprecation/JADeprecation.h:104-109 | the reported state becomes the one the new Ok string gives; no notification fires |
| Checker.Deprecation.SetStringForDeprecatedState | JADeprecation/JADeprecation.h:111-116 | the reported state becomes the one the new Deprecated string gives; no notification fires |
| Checker.Deprecation.SetStringForEndOfLifeState | JADeprecation/JADeprecation.h:118-123 | the reported state becomes the one the new End-Of-Life string gives; no notification fires |
| Checker.Deprecation.OnStateChange | JADeprecation/JADeprecation.h:145-161 | a state-change block is registered; nothing else changes |
| Checker.Deprecation.OnResponseUpdate | JADeprecation/JADeprecation.h:163-171 | a response-update block is registered; nothing else changes |
| Checker.Deprecation.CheckCycle | JADeprecation/JADeprecation.h:48-56 | no request while the cached response is fresh. After expiry one request is made. A failure keeps the cache and fires nothing, and the state reads Unknown. A response dictionary is cached until now plus the current time-to-cache and fires response-update. State-change fires iff the new response is fresh and its state differs from the replaced response's. The next check is at the new expiry, or at once. Invariant: state changes ≤ response updates ≤ requests |
| Checker.NoRedundantFetch | JADeprecation/JADeprecation.h:48-51 | after a successful check at t, a check at a later time n requests the URL again exactly when n has reached t plus the time to cache in effect at t; before that it requests nothing, fires nothing, and the state stays the one the response gives |
| Checker.ExpiryFixedAtRequest | JADeprecation/JADeprecation.h:50 | after a successful check at t, setting a new time to cache leaves the state read as the response's until t plus the old time to cache, and Unknown from then on |
| Checker.Deprecation.BeginChecking | JADeprecation/JADeprecation.h:175-182 | the first call starts checking and does one check as CheckCycle does; every later call changes nothing |

## Left out

- Checker.Deprecation.CheckCycle: a response stored with a time to cache of 0
  or less never reads as anything but Unknown, yet it is still the "replaced
  response" whose state the next successful response is compared with. The
  header does not say how such a response should count.

- The HTTP request to the URL is network I/O. Its outcome is a parameter of
  `CheckCycle`: a parsed response, or a failure.
- JSON parsing happens in a foreign library. The model starts from a parsed
  `Value` or from a failure.
- Persistence of the cache across launches is external storage. A persisted
  entry is a constructor parameter. The removal of expired responses for other
  URLs from that storage (JADeprecation/JADeprecation.h:68) is not modelled.
- Dispatching blocks on the main thread is concurrency. Firings are counted
  and the blocks are not run.
- Self-rescheduling, and the object keeping itself alive through it, is a
  timer and memory-management idiom. `CheckCycle` returns when the next check
  is due, and the caller drives it.
- More than one instance with the same URL is undefined behaviour in the
  source, so it is not modelled.
- `checkerWithURL:` is the class-method form of `initWithURL:`, so only the
  constructor is modelled. The URL is kept as a string and not otherwise used.
- `NSTimeInterval` is floating point. Time and `timeToCacheResponse` are whole
  seconds here.
- Key-value coding goes beyond nested dictionary members: collection
  operators, and keys applied to arrays. Arrays and other non-string,
  non-dictionary values are opaque, so a key-path through them finds nothing.
- The implementation file of the class is not part of this model. Behaviour
  the header leaves open follows the design decisions above: an empty
  key-path, the previous state used for change detection, and unset
  properties.
