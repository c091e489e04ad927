# laco-vue `Subscribe`: subscription bookkeeping

This project models the `Subscribe` component of laco-vue. The component
connects laco stores to a Vue component tree. Its `states` computed property
reads every store in its `to` prop. For each store, in order, it unsubscribes
the component's `onUpdate` listener, subscribes it again, pushes the store
onto the component's own `stores` list and collects the store's `get()`
value. The `updated` and `beforeDestroy` hooks both run `_unsubscribe`,
which removes `onUpdate` from every store recorded in `stores`. `onUpdate`
asks Vue for a re-render.

The model has three modules:

- `Stores` (`stores.dfy`) holds the external stores, described only by the
  contract the component relies on. Stores are opaque ids: the same reference
  means the same id. All registrations are kept in one map from store id to
  the multiset of listeners on that store. `subscribe(l)` adds one
  registration of `l`. `unsubscribe(l)` removes `l`, and does nothing when `l`
  is not registered. `get()` reads a value function. The class `Hub` holds
  this state, and its methods are the three store calls.
- `Lifecycle` (`lifecycle.dfy`) specifies the component's two loops as pure
  functions of the registrations before them. `Resubscribe` is the
  evaluation loop and `DetachAll` is the teardown loop. The lemmas about
  them carry the properties.
- `LacoVue` (`subscribe.dfy`) holds the component as a class `Subscribe`.
  Its fields are `to`, `stores` and `renderRequests`, plus the shared `hub`
  and the identity of its bound `onUpdate` listener. `States` and
  `Unsubscribe` are loops proved against `Resubscribe` and `DetachAll`.
  `Valid()` is the invariant the component keeps: every store that holds
  `onUpdate` is recorded in `stores`, and no store holds it more than once.
  Three client methods walk through lifecycles: re-configuration
  (`ReconfigureLifecycle`), the default empty `to` (`DefaultIsInert`), and a
  second teardown (`TeardownTwice`).

The model follows the code as written, in particular:

- `_unsubscribe` never clears `stores`, and `states` only pushes onto it.
  So `stores` is the old list followed by `to`, and it accumulates across
  evaluations. It is not "the requested set of the last evaluation".
- Vue runs no `updated` hook after the first render, so nothing tears down
  the registrations of the first evaluation. After a re-configuration from
  `[x, y]` to `[y]`, `x` keeps its registration until the `updated` hook of
  the re-render. That hook then removes `onUpdate` from every recorded store,
  `y` included, so no store holds it afterwards (`ReconfigureLifecycle`).

## Model

| member | source | states |
|---|---|---|
| `Stores.UnsubscribedEffect` | packages/laco-vue/index.ts:20 | after `store.unsubscribe(l)` the store holds no registration of `l`, keeps its other listeners, and no other store and no map entry changes |
| `Stores.SubscribedEffect` | packages/laco-vue/index.ts:21 | after `store.subscribe(l)` the store holds exactly one more registration of `l`, keeps its other listeners, and no other store changes |
| `Stores.Hub.Unsubscribe` | packages/laco-vue/index.ts:20 | the hub's registrations become those after `unsubscribe` on that store |
| `Stores.Hub.Subscribe` | packages/laco-vue/index.ts:21 | the hub's registrations become those after `subscribe` on that store |
| `Stores.Hub.Get` | packages/laco-vue/index.ts:23 | `get()` returns the store's current value and changes nothing |
| `Lifecycle.ResubscribeEffect` | packages/laco-vue/index.ts:19-21 | after the evaluation loop, every store of `to` holds `l` exactly once, however often it occurs in `to` and however often it held `l` before; its other listeners and every store outside `to` are as they were |
| `Lifecycle.ResubscribeKeys` | packages/laco-vue/index.ts:19-21 | the evaluation loop adds an entry for each store of `to` and drops no store |
| `Lifecycle.ResubscribeCounts` | packages/laco-vue/index.ts:19-21 | per store: one registration of `l` on each store of `to`, other listeners' counts unchanged everywhere, stores outside `to` untouched |
| `Lifecycle.ResubscribeIdempotent` | packages/laco-vue/index.ts:18-24 | evaluating twice over the same `to` gives the same registrations as once, so repeated evaluation never accumulates registrations |
| `Lifecycle.ResubscribeTracked` | packages/laco-vue/index.ts:19-22 | if every registration of `l` is on a recorded store and none is doubled, this still holds after evaluation once `to` is appended to the record |
| `Lifecycle.DetachAllEffect` | packages/laco-vue/index.ts:35-37 | after the teardown loop no recorded store holds `l`; other listeners, unrecorded stores and the map's entries are as they were |
| `Lifecycle.DetachAllNoop` | packages/laco-vue/index.ts:35-37 | tearing down over stores that no longer hold `l` changes nothing |
| `Lifecycle.DetachAllIdempotent` | packages/laco-vue/index.ts:35-37 | tearing down twice over the same stores gives the same registrations as once |
| `Lifecycle.DetachAllClears` | packages/laco-vue/index.ts:34-38 | when every registration of `l` is on a recorded store, teardown leaves no registration of `l` on any store |
| `Lifecycle.EvaluateThenTeardown` | packages/laco-vue/index.ts:18-38 | across evaluations: evaluate over any `to`, then tear down over everything recorded, and no store holds `l`, including stores an earlier `to` named and this one drops |
| `LacoVue.Subscribe.constructor` | packages/laco-vue/index.ts:4-16 | a new component has `to` equal to the prop, or empty when the prop is absent; `stores` is empty; no re-render has been requested; the invariant holds |
| `LacoVue.Subscribe.SetTo` | packages/laco-vue/index.ts:5-10 | a new `to` prop from the parent, or the empty default when none is passed |
| `LacoVue.Subscribe.Track` | packages/laco-vue/index.ts:19-23 | the `map` callback: registrations become unsubscribe then subscribe on that store, the store is pushed onto `stores`, and its `get()` value is returned |
| `LacoVue.Subscribe.States` | packages/laco-vue/index.ts:18-24 | the result has one value per store of `to`, in order, each that store's `get()`; `stores` becomes the old `stores` followed by `to`; registrations become `Resubscribe` of the old ones; each store of `to` holds `onUpdate` exactly once; other listeners and stores outside `to` are unchanged; the invariant is kept |
| `LacoVue.Subscribe.Unsubscribe` | packages/laco-vue/index.ts:34-38 | registrations become `DetachAll` of the old ones over `stores`; no store holds `onUpdate` afterwards; other listeners and the component itself (`stores` included) are unchanged |
| `LacoVue.Subscribe.Updated` | packages/laco-vue/index.ts:27-29 | the `updated` hook performs exactly the teardown above |
| `LacoVue.Subscribe.BeforeDestroy` | packages/laco-vue/index.ts:30-32 | the `beforeDestroy` hook performs exactly the teardown above |
| `LacoVue.Subscribe.OnUpdate` | packages/laco-vue/index.ts:39-41 | each call adds exactly one re-render request |

## Left out

- Vue rendering: `render`, `createElement`, the default scoped slot and the
  wrapping `div` (packages/laco-vue/index.ts:43-49). They are host UI machinery.
- Vue reactivity and computed caching: when Vue re-runs `states`, and how
  `$forceUpdate` schedules or coalesces re-renders. `OnUpdate` only counts
  re-render requests, and the host is the caller of `States`, `Updated` and
  `BeforeDestroy`.
- The store implementation is not part of this model. It is replaced by the
  assumed contract in `Stores`. Two consequences follow. A store's own
  notification, which calls each of its registered listeners, is not
  modelled, so `OnUpdate` is called directly. No operation of the model
  changes a store's value; `get()` reads the hub's value function.
- Vue prop typing (`type: Array`) and the default-factory mechanics. The
  model only keeps the effect that an absent `to` means no stores.
- Asynchronous timing of store notifications relative to the render cycle.
  This is event-loop behaviour of the host.
- The invariant `Valid()` assumes that only this component registers or
  removes its own `onUpdate` listener. The constructor requires that no
  store holds it yet, which is true of a freshly bound method.
