# quart-events: a verified model of the event broker

This project models the core of `quart-events`, a Quart extension that lets
server code broadcast named events to every connected websocket client.
Clients authorise first and receive a session token that expires. Each
connection may narrow its stream to a namespace, and it gets a `_keepalive`
frame whenever the broadcast queue has been idle for a while.

The repository also holds two pytest plugins. `quart_events/pytest_plugin.py`
is inside the package. `pytest_quart_events/plugin.py` is not packaged by
`setup.py`. Each has a `CaughtEvents` collector that gathers the events a
test expects.

What the model covers, by source file:

- `quart_events/broker.py`.
  - `Tokens` models `Token`, `NullToken`, `_token_is_expired` and the token table sweep.
  - `Callbacks` models the ordered callback lists and `_execute_callbacks`.
  - `Subscription` models the keepalive-wrapped `subscribe` generator.
  - `Events.Put` models `put`'s defaulting of `event`.
  - `Broker.EventBroker` is a class with the callback lists, the `_tokens`
    map and the client's session slot as fields. Its methods are
    `authorize_websocket`, `verify_auth_token`, `verify_auth` and the `ws`
    handler. The handler is split into the authorisation prologue (`Ws`),
    the `async for` loop (`Loop`) and the loop body (`LoopBody`), each proved
    against the specification functions `WsFrames`, `Deliver` and `StepOf`.
- `quart_events/pytest_plugin.py`: `PytestPlugin`, with `_getini` and the
  namespace-filtering `CaughtEvents` (`run`, `__len__`, `event_names`, `assert_events`).
- `pytest_quart_events/plugin.py`: `PytestQuartEvents`, the unfiltered `CaughtEvents`.

Modelling choices:

- Time is an integer `now` passed to each operation, in seconds.
- A uuid is represented by its canonical text, which is what `str()` returns
  and what keys `_tokens`. A freshly minted uuid is a parameter (`newId`).
- Nothing stops the caller from passing a `newId` already in the table; the
  source does not check for this either.
- Python values are `PyNone`, `PyStr` or `PyOther`. An event is a map from
  string keys to values.
- A user callback is known only by name. A `Behaviour` parameter says whether
  each call returns, raises `EventBrokerAuthError(message)`, or raises some
  other exception.
- The websocket loop consumes `Arrival`s. Each one pairs an item yielded by
  `subscribe` with the clock reading its expiry check sees. The flag `ended`
  says whether the subscription ended on its own, on the
  `StopAsyncIteration` sentinel.
- Frames are a datatype. `ToJson` gives the exact mapping each one sends.

Three behaviours of the code are modelled as written:

- `verify_auth_token` raises `EventBrokerAuthError('token is expired')` with
  one argument. The constructor in `quart_events/errors.py` takes two, so
  Python raises `TypeError` instead. The `ws` handler therefore sends
  `{'event': 'error', 'message': 'not authorized'}` to a client whose
  session token is missing or expired. See `ExpiredSessionIsRefused`.
- `authorize_websocket` also tests `_token is type(NullToken)`. That compares
  the token with the class `type`, so the test never holds. Renewal depends
  on `_token_is_expired` alone, which already treats `NullToken` as expired.
- With authorisation disabled, `_token` is never bound in `ws`. The first
  item of the subscription therefore raises inside the loop, and the
  handler's generic `except` ends the loop without `_close`. See
  `AuthDisabledStopsAtFirstItem`.

The code lacks two behaviours:

- Verification looks only at the session token's date. It never consults
  `_tokens`, and it has no "unknown" or "malformed" checks.
- A failed authorisation removes the session's `quart_events_token` entry. It
  does not roll back `_tokens`.

## Model

| member | source | states |
|---|---|---|
| Tokens.IsExpired | quart_events/broker.py:126-131 | `_token_is_expired`: a `NullToken` is expired; any other token is expired iff its date is strictly before `now - token_expire_seconds` |
| Tokens.LiveTokens | quart_events/broker.py:133-136 | the table after a sweep: a key stays iff its token is unexpired at `now`, with its token unchanged |
| Tokens.ExpiryBoundary | quart_events/broker.py:126-131 | a `NullToken` is always expired; a token issued exactly `token_expire_seconds` before `now` is still live, one second earlier it is expired (strict comparison) |
| Tokens.ExpiryIsMonotone | quart_events/broker.py:126-131 | a token expired at some time stays expired at every later time |
| Tokens.LaterSweepSubsumes | quart_events/broker.py:133-136 | sweeping at an earlier and then a later time leaves the same table as sweeping once at the later time |
| Callbacks.FirstFailure | quart_events/broker.py:108-114 | running a callback list returns iff every callback returns; otherwise the outcome is the exception of a callback all of whose predecessors returned |
| Callbacks.FirstFailureAt | quart_events/broker.py:110-114 | the first callback that raises decides the outcome of the whole list |
| Callbacks.ExecuteCallbacks | quart_events/broker.py:108-114 | calls the callbacks in list order, a prefix of the list; stops right after the first one that raises, reports its exception, and otherwise has called all of them |
| Subscription.Items | quart_events/broker.py:269-279 | the items the generator yields for a run of queue outcomes: a keepalive per timeout, each received value unchanged, nothing from the first sentinel on |
| Subscription.ItemsMeaning | quart_events/broker.py:269-279 | item by item, a timeout becomes `KeepAlive` and a received value `Data` of itself; the items stop exactly at the first sentinel, and cover every outcome when there is none |
| Subscription.Subscribe | quart_events/broker.py:264-279 | the loop yields exactly `Items` of the outcomes, and ends on its own iff the sentinel arrives |
| Events.Put | quart_events/broker.py:254-262 | `event` is set to `None` only when absent; a supplied `event` and every other field are kept, and no other key is added |
| Events.PutKeepsEventName | quart_events/broker.py:259-260 | the defaulting changes neither the name `event_names` reads nor the outcome of the namespace test, for any namespace |
| Events.Screen | quart_events/broker.py:230-236 | the namespace test: a falsy namespace accepts; otherwise a `None`/absent name skips, a string name is accepted iff it starts with the namespace, and any other value makes `startswith` raise |
| Events.Matching | quart_events/broker.py:230-236 | the events a namespace test accepts, in their original order |
| Events.ScreenMeaning | quart_events/broker.py:230-236 | with no or an empty namespace every event passes; otherwise an event passes iff its `event` is a string starting with the namespace, is skipped iff it is `None`/absent or a non-matching string, and the test raises iff it is some other value |
| Events.MatchingWithoutNamespace | quart_events/broker.py:230-236 | filtering with no namespace keeps every event |
| Events.MatchingRespectsNamespace | quart_events/broker.py:230-236 | every event kept by a namespace filter is an input event whose name starts with the namespace |
| Events.Names | quart_events/pytest_plugin.py:125-126 | one name per event, in order, each the event's `event` field or `None` if absent |
| Broker.ToJson | quart_events/broker.py:206-248 | a data frame sends the published mapping unchanged; every other frame is a mapping with a non-empty string `event` |
| Broker.StepOf | quart_events/broker.py:217-245 | one pass of the loop body: unbound token stops; expired token sends `_token_expire` and stops; keepalive sends `_keepalive`; skipped data is dropped; a raising name test or send callback stops silently; otherwise the data is sent |
| Broker.Deliver | quart_events/broker.py:216-248 | the frames of the `async for ... else` loop: one step per item until one stops it, then `_close` only if the subscription ended on its own |
| Broker.HaltIndex | quart_events/broker.py:216-245 | the position of the first item whose step stops the loop, or the stream length when none does; no earlier item stops it |
| Broker.StepChecksInOrder | quart_events/broker.py:225-239 | per item exactly one outcome, checked in order: unbound token stops; expired token sends `_token_expire` and stops; keepalive sends `_keepalive`; data outside the namespace is dropped; data inside it is sent unchanged iff every send callback returned |
| Broker.DeliveredData | quart_events/broker.py:216-239 | the data frames sent are exactly the data items before the stopping item that pass the namespace test, unchanged and in arrival order |
| Broker.CloseOnlyOnNaturalEnd | quart_events/broker.py:240-248 | `_close` is sent iff the subscription ended on its own and no item stopped the loop; it is then the last frame and sent once |
| Broker.TokenExpireIsTerminal | quart_events/broker.py:225-227 | `_token_expire` is sent only when the bound token has expired at the stopping item, and it is the last frame |
| Broker.ExpiryAtStopSendsTokenExpire | quart_events/broker.py:225-227 | when the item that stops the loop finds the bound token expired, `_token_expire` is sent as the last frame |
| Broker.SubscriptionCloses | quart_events/broker.py:246-248 | fed the items `subscribe` yields, the loop sends `_close` iff the queue delivered the sentinel and no item stopped the loop; the sentinel then directly follows the consumed items |
| Broker.LoopFramesAreStreamFrames | quart_events/broker.py:216-248 | the subscriber loop never sends `_open` or an error frame |
| Broker.EventBroker.constructor | quart_events/broker.py:54-86 | empty callback lists, empty token table, no session token, configuration stored |
| Broker.EventBroker.Auth | quart_events/broker.py:99-100 | appends the callback to the auth list |
| Broker.EventBroker.Verify | quart_events/broker.py:102-103 | appends the callback to the verify list |
| Broker.EventBroker.Send | quart_events/broker.py:105-106 | appends the callback to the send list |
| Broker.EventBroker.SessionToken | quart_events/broker.py:116-124 | `_get_token_from_session`: the stored token, or `NullToken` when the session holds none |
| Broker.EventBroker.ClearExpiredTokens | quart_events/broker.py:133-136 | afterwards the table holds exactly the previous entries unexpired at `now`, keys and tokens unchanged |
| Broker.EventBroker.AuthorizeWebsocket | quart_events/broker.py:138-156 | sweeps the table; if an auth callback raises, returns its exception, removes the session token and adds no token; otherwise keeps a live session token and table as swept, or stores a token minted at `now` in the session and under its uuid text in the table; on success with a non-negative expiry span the session token verifies |
| Broker.EventBroker.VerifyAuthToken | quart_events/broker.py:158-162 | succeeds iff the session token is unexpired, returning it; otherwise raises a generic error (the `TypeError` of the wrong-arity constructor call) |
| Broker.EventBroker.VerifyAuth | quart_events/broker.py:164-171 | succeeds iff the session token is unexpired and every verify callback returns, returning the session token; an expired or missing token is refused with the generic error; with a live token, a refusal carries the exception of the first verify callback that raised |
| Broker.EventBroker.WsFrames | quart_events/broker.py:201-250 | the frames of one connection: with authorisation on and refused, one error frame carrying the auth error's message or `not authorized`; otherwise `_open` followed by the loop's frames, with the verified token bound, or no token when authorisation is off |
| Broker.EventBroker.Ws | quart_events/broker.py:201-250 | sends the frames `WsFrames` specifies; a refused authorisation sends exactly one error frame, otherwise the first frame is `_open` |
| Broker.EventBroker.Loop | quart_events/broker.py:216-248 | the `async for` loop sends exactly the frames `Deliver` specifies for the stream |
| Broker.EventBroker.LoopBody | quart_events/broker.py:217-245 | one pass of the loop body does what `StepOf` specifies; it calls a prefix of the send callbacks, any at all only for a data item that passes the namespace test under a live token, and all of them before a data frame is sent |
| Broker.EventBroker.ExpiredSessionIsRefused | quart_events/broker.py:158-210 | with authorisation on and a missing or expired session token, the client gets exactly `{'event': 'error', 'message': 'not authorized'}`, whatever the verify callbacks would do |
| Broker.EventBroker.VerifyCallbackErrorIsReported | quart_events/broker.py:164-207 | with a live session token, an `EventBrokerAuthError(m)` from the first raising verify callback reaches the client as exactly `{'event': 'error', 'message': m}`, and nothing else is sent |
| Broker.EventBroker.AuthDisabledStopsAtFirstItem | quart_events/broker.py:202-245 | with authorisation off, the client gets `_open`, then `_close` only if the subscription ended with no item, and nothing else |
| Broker.EventBroker.WsFraming | quart_events/broker.py:201-250 | every conversation is one error frame alone, or starts with `_open` and never repeats it or sends an error; `_close` comes only last and only on natural end |
| PytestPlugin.GetIni | quart_events/pytest_plugin.py:26-32 | a non-empty configured value is returned; an empty one falls back to the default |
| PytestPlugin.Collect | quart_events/pytest_plugin.py:110-123 | the filtering loop of `run`: skip what the namespace test rejects, stop with `Raised` where it raises, append the rest and return once there are `expected`; on running out, return normally if the subscription ended and time out otherwise |
| PytestPlugin.CollectKeepsOrder | quart_events/pytest_plugin.py:110-123 | the collected events are the first events of the input that pass the namespace test, in arrival order |
| PytestPlugin.ExhaustedCollectsAllMatching | quart_events/pytest_plugin.py:110-123 | when the run times out, or returns because the subscription ended, every input event that passes the namespace test was collected |
| PytestPlugin.CollectBounded | quart_events/pytest_plugin.py:113-123 | reaching the target means exactly `max(expected, 1)` events; every other ending means fewer; a normal return short of the target happens only when the subscription ended, a timeout only when it did not |
| PytestPlugin.CollectRespectsNamespace | quart_events/pytest_plugin.py:114-121 | with a non-empty namespace, every collected event's name is a string starting with it |
| PytestPlugin.UnfilteredAgrees | quart_events/pytest_plugin.py:110-123 | with no namespace this collector collects exactly what the unfiltered collector does, reaches the target or returns on the subscription's end exactly when it does, and never raises |
| PytestPlugin.GeneratedScreens | quart_events/pytest_plugin.py:114-120 | of the four events `ns0:test0`, `ns0:test1`, `ns1:test2`, `ns1:test3`, the first two pass `ns0` and fail `ns1`; the last two pass `ns1` |
| PytestPlugin.NamespacedScenario | quart_events/pytest_plugin.py:110-123 | collecting two events under `ns0` or `ns1` from those four gets exactly that namespace's two events, in order, and reaches the target whether or not the subscription ends afterwards |
| PytestPlugin.CaughtEvents.constructor | quart_events/pytest_plugin.py:87-99 | no events collected yet; configuration stored |
| PytestPlugin.CaughtEvents.Run | quart_events/pytest_plugin.py:110-123 | the collected list and the outcome are those of `Collect` started from an empty list, whatever was collected before, for the events that arrived and whether the subscription ended |
| PytestPlugin.CaughtEvents.Len | quart_events/pytest_plugin.py:104-105 | equals the number of event names, one per collected event |
| PytestPlugin.CaughtEvents.EventNames | quart_events/pytest_plugin.py:125-126 | same length and order as the collected events, each entry that event's `event` field or `None` |
| PytestPlugin.CaughtEvents.AssertEvents | quart_events/pytest_plugin.py:128-129 | passes iff the list has one entry per collected event and each equals that event's name |
| PytestQuartEvents.Collect | pytest_quart_events/plugin.py:73-79 | the loop of `run`: append each event and return once there are `expected`; on running out, return normally if the subscription ended and time out otherwise |
| PytestQuartEvents.CollectIsPrefix | pytest_quart_events/plugin.py:73-79 | the collected events are the first `max(expected, 1)` events of the input, or all of them if fewer arrived; the run reaches the target iff that many arrived, returns on the subscription's end iff fewer arrived and it ended, and times out iff fewer arrived and it did not end |
| PytestQuartEvents.CaughtEvents.constructor | pytest_quart_events/plugin.py:55-62 | no events collected yet; configuration stored, the namespace unused |
| PytestQuartEvents.CaughtEvents.Run | pytest_quart_events/plugin.py:73-79 | the collected list and the outcome are those of `Collect` started from an empty list, with no filtering, for the events that arrived and whether the subscription ended |
| PytestQuartEvents.CaughtEvents.Len | pytest_quart_events/plugin.py:67-68 | equals the number of event names, one per collected event |
| PytestQuartEvents.CaughtEvents.EventNames | pytest_quart_events/plugin.py:81-82 | same length and order as the collected events, each entry that event's `event` field or `None` |
| PytestQuartEvents.CaughtEvents.AssertEvents | pytest_quart_events/plugin.py:84-85 | passes iff the list has one entry per collected event and each equals that event's name |

## Left out

- Quart wiring is not modelled: the blueprint, routing, `init_app`, and the
  `SECRET_KEY` check in the constructor.
- The `/auth` route's JSON bodies and its 401/400 status mapping are not
  modelled. With authorisation disabled, that route simply reports success.
- The fan-out hub (`MultisubscriberQueue`) is not part of this model.
  `subscribe` works over a given sequence of queue outcomes, and `put` is
  modelled only up to the mapping it hands to the hub.
- `asyncio.wait_for` timing, cancellation and the async generator machinery
  are not modelled.
  - An idle timeout is an explicit `TimedOut` outcome.
  - A cancelled or still-waiting subscription is a stream that ends with
    `ended` false.
  - A `CancelledError` inside the loop body stops the loop like any other
    exception.
- Exceptions outside `Exception` raised by a callback are not modelled.
  Such an exception escapes every `except Exception` in the handlers. From
  Python 3.8 on, this includes `asyncio.CancelledError`. Under Python 3.7,
  which the package still accepts, `CancelledError` is an `Exception` and
  falls under `OtherError`.
- Time is counted in whole seconds. Sub-second dates from `utcnow()` are not
  modelled, and neither is the `OverflowError` that
  `utcnow() - timedelta(seconds=token_expire_seconds)` raises for a span beyond
  `datetime`'s range. With such a span, the sweep would raise on any non-empty
  table and token verification would raise for every real token.
- Operations do not interleave with other requests. Other requests could run
  between the sweep and the mint in `authorize_websocket`, while it awaits the
  auth callbacks, and change `_tokens`. The send callbacks are read once per
  connection, whereas the `ws` loop re-reads `_send_callbacks` for every item.
- `uuid4()` and `datetime.utcnow()` become parameters.
  - Each operation sees one clock reading, while the source reads the clock
    at every expiry test. A sweep that straddles an expiry boundary could
    therefore differ.
  - The websocket loop does get one reading per item.
- The session cookie is treated as storing the token exactly. Quart's
  serialisation of the `datetime` is not modelled.
- JSON encoding of frames is left out. `ToJson` gives the mapping that is
  encoded.
- User callbacks are not modelled beyond their order and outcome. Each is
  deterministic in its callback and argument, and any side effects are not
  modelled. In particular, a send callback receives the very dict that is
  then sent. The hub hands that same object to every subscriber. So a send
  callback that mutates `data` changes what is sent, here and on other
  connections.
- Failures of `websocket.send_json` itself are not modelled. Every send is
  taken to succeed.
- `EventsCatcher.run` and `EventCatcher.run` are not modelled. They are
  websocket test-client loops. Each collector's input is the finite sequence
  of events that arrive before its timeout, plus whether the catcher's
  subscription ended after them.
- `__repr__`, `__iter__` and `events()` of the plugins are thin wrappers and
  are not modelled.
- `setup.py`, the version check in `quart_events/__init__.py` and the
  exception classes in `quart_events/errors.py` are not part of this model.
  Only the latter's two-argument constructor matters here, for the
  `TypeError` described above.
