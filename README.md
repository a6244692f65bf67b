# LocalEvent: a per-object publish/subscribe bus

This project models `LocalEvent`, a small publish/subscribe bus that a host
object carries. It comes in two variants:

- **The full variant** (`events-requirejs.js`, module `EventsRequirejs`) has
  four parts:
  - a dictionary from topic name to the subscriptions of that topic;
  - a token counter, `subId`, which starts at -1, so the first token is 0;
  - a list of all-topics listeners;
  - a bus identity.

  `publish` takes an event record. It stamps the record's `publishers` set with
  the bus's identity. A bus that finds its own stamp already there refuses the
  event. This breaks cycles when buses hand the same event object on to each
  other.
- **The simple variant** (`events.js`, module `Events`) is the same bus
  without the guard and without all-topics listeners. Its `publish` takes the
  topic string itself.

What the two variants share is in module `Registry` (`registry.dfy`):
- the subscription lists and the functions that specify `subscribe`,
  `unsubscribe` and a dispatch;
- the registry invariant: tokens are pairwise distinct across all lists, and
  each lies between 0 and `subId`;
- the two loops both variants run: the token search of `unsubscribe`
  (`FindToken`) and the `while (len--)` dispatch loop (`DispatchLoop`).

Each bus is a class whose methods update its fields in place. `Valid()` is the
registry invariant. Every state-changing method states the whole new state in
terms of the old one.

Handlers are opaque, so each is named by a `HandlerId`. Publishing does not run
handlers. Instead, `publish` returns its boolean result together with the
sequence of `Call`s it would make, in order. A `Call` records the handler and
the arguments that follow the first one. The first argument is the event
object, or the topic string in the simple variant.

The multi-bus cycle is modelled as top-level `publish` calls that share one
`Event` object: `CycleStopsOnAnyBuses` for any two buses, `CycleStops` for one concrete pair.

An all-topics listener is called with the event object alone
(`events-requirejs.js:93`). Only topic subscribers get the extra publish
arguments, so a global listener's `Call` has an empty `extra`.

## Model

| member | source | states |
|---|---|---|
| `Registry.DispatchNewestFirst` | events-requirejs.js:128-134 | a topic dispatch makes one call per subscription; call k goes to the entry subscribed k-th from the end, with all publish arguments |
| `Registry.LaterSubscriberRunsFirst` | events.js:64-70 | of two subscriptions to one topic, the later one is invoked before the earlier one |
| `Registry.DispatchInvokesEachOnce` | events.js:64-70 | the multiset of invoked handlers equals the multiset of subscribed handlers, so each subscription fires exactly once |
| `Registry.InvokesOnlySubscribers` | events-requirejs.js:131-134 | every call of a dispatch goes to a handler on that list, with exactly the publish arguments |
| `Registry.WithoutAbsent` | events.js:81-88 | scanning a list that has no entry with the token changes nothing in it |
| `Registry.WithoutUnique` | events-requirejs.js:151-156 | when one entry carries the token, removing the token is `splice(i, 1)` at that entry: the others keep their order |
| `Registry.WithoutTokenAbsent` | events-requirejs.js:147-161 | unsubscribing a token that no list holds leaves every list as it was |
| `Registry.WithoutTokenAt` | events-requirejs.js:147-157 | with distinct tokens, unsubscribing the token found at (topic, index) splices exactly that entry out, and every other list stays the same |
| `Registry.RemoveAtKeepsInvariant` | events-requirejs.js:155 | splicing one entry out keeps tokens distinct and within 0..subId |
| `Registry.WithoutTokenKeepsInvariant` | events.js:75-92 | unsubscribing any token, known or not, keeps the registry invariant |
| `Registry.SubscribeKeepsInvariant` | events-requirejs.js:57-69 | the token subId + 1 is in no list, and pushing it onto a topic's list, created if absent, keeps the invariant with the counter at subId + 1 |
| `Registry.UnsubscribeUndoesSubscribe` | events.js:39-92 | unsubscribe(subscribe(t, h)) restores the registry, except that t keeps the (possibly empty) list created for it |
| `Registry.UnsubscribedHandlerNotInvoked` | events.js:39-92 | after unsubscribe(subscribe(t, h)), publishing t makes the same calls as before, and none to h if h was not subscribed to t |
| `Registry.FindToken` | events-requirejs.js:147-161 | the nested search finds an entry whose token matches exactly when some list holds one; it reports the topic and the first matching index in that list, and topics are visited in any order |
| `Registry.DispatchLoop` | events-requirejs.js:128-134 | the `while (len--)` loop yields the dispatch of the list: last entry first, each with all publish arguments |
| `EventsRequirejs.Event.constructor` | events-requirejs.js:106 | a fresh event carries its topic and no publisher stamps |
| `EventsRequirejs.LocalEvent.constructor` | events-requirejs.js:38-44 | a new bus has its given identity, no topics, no all-topics listeners and counter -1, so its first token is 0 |
| `EventsRequirejs.LocalEvent.Subscribe` | events-requirejs.js:55-72 | returns the old counter + 1, which no list held, and stores it as the counter; creates the topic's list if absent and appends {token, func} at its end; other lists and the listeners are unchanged; the invariant is kept |
| `EventsRequirejs.LocalEvent.SubscribeToAll` | events-requirejs.js:79-82 | appends the listener to the all-topics list; topics and counter are unchanged |
| `EventsRequirejs.LocalEvent.PublishToGlobalSubscribeFuncs` | events-requirejs.js:89-95 | calls every all-topics listener once, in the order added, with the event alone |
| `EventsRequirejs.LocalEvent.Publish` | events-requirejs.js:103-137 | an event already stamped with this bus's id: false, no calls, stamps unchanged; otherwise the stamp is added, the all-topics listeners run, then the topic's list runs newest first with all arguments; the result is true exactly when the topic has a list, even an empty one; the bus itself is not modified |
| `EventsRequirejs.LocalEvent.Unsubscribe` | events-requirejs.js:145-162 | returns Some(token) exactly when some list holds the token, else None; the new registry is the old one without that token, no topic is dropped, the counter and listeners are unchanged, and the invariant is kept |
| `EventsRequirejs.CycleStopsOnAnyBuses` | events-requirejs.js:103-137 | for any two buses of distinct ids and an event neither has stamped, publishing A, B, A: A and B each return whether the topic has a list and make their all-topics calls followed by their topic's newest-first dispatch; the second visit to A returns false with no calls; the event ends up stamped by both |
| `EventsRequirejs.CycleStops` | events-requirejs.js:105-116 | with buses A and B of distinct ids and one shared event, publishing A, B, A handles the event twice, each bus invoking its subscriber once; the second visit to A returns false and invokes nobody |
| `Events.LocalEvent.constructor` | events.js:30-35 | a new bus has no topics and counter -1, so its first token is 0 |
| `Events.LocalEvent.Subscribe` | events.js:39-52 | returns the old counter + 1, which no list held, and stores it as the counter; creates the topic's list on first use and appends to its end; other lists are unchanged; the invariant is kept |
| `Events.LocalEvent.Publish` | events.js:54-73 | true exactly when the topic has a list, even an emptied one; then one call per entry, newest first, each with all publish arguments; false and no calls otherwise |
| `Events.LocalEvent.Unsubscribe` | events.js:75-92 | returns Some(token) exactly when some list holds the token, else None; the new registry is the old one without that token, no topic is dropped, the counter is unchanged, and the invariant is kept |
| `Events.SubscribeThenUnsubscribe` | events.js:39-92 | on a valid bus where h is not subscribed to t, subscribe(t, h) and then unsubscribing its token returns that token; publishing t then returns true and never invokes h |

## Left out

- `getGUID` and `eventBusIdCounter` (events-requirejs.js:10, 28-31) are left out, because they depend on the clock and on `Math.random`. A bus receives its identity as a constructor parameter. Distinct identities are a precondition of `CycleStopsOnAnyBuses` and `CycleStops`, not a proved fact.
- `install` (events-requirejs.js:17-25, events.js:22-28), the `define` and `window.utils` wrappers, and the unused `parent` field (events.js:34) are left out. They are packaging and do no topic logic.
- Handlers are not executed. A dispatch is the returned sequence of calls. Not modelled: re-entrant publishes from inside a handler, a handler that subscribes or unsubscribes during a dispatch (the JS loop keeps a stale `len`), and a throwing handler that aborts the rest of the dispatch. The cross-bus cycle is modelled as successive top-level publishes of one shared event.
- `EventsRequirejs.LocalEvent.Publish`: the source stamps the event before any handler runs. This order is not observable here, because handlers do not run.
- The token counter is an unbounded integer. JavaScript numbers stop incrementing exactly beyond 2^53; that is not modelled.
- JavaScript object artefacts are not modelled:
  - topic names that collide with properties inherited from `Object.prototype`, such as `"toString"`, which `!this.topics[topic]` treats as an existing list;
  - topics that are not strings;
  - a `publishers` entry that a caller set to `false`.
- The truthiness of an `unsubscribe` result is not modelled. Returning token 0 is falsy in JavaScript; here it is `Some(0)`.
- An event carries only `message` and `publishers`. Other fields are opaque to the bus. `message` is fixed at construction.
- The source has no operation to remove an all-topics listener, so the model has none.
