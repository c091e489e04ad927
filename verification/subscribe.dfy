/**
 The `Subscribe` component of laco-vue: it subscribes one listener, `onUpdate`,
 to every store it is asked to read, remembers each store it subscribed in
 `stores`, and unsubscribes `onUpdate` from every remembered store after each
 update render and before it is destroyed.

 `stores` only ever grows: evaluation pushes onto it and teardown never clears
 it, so it records every store this component has ever subscribed.
 */
module LacoVue {
  import opened Stores
  import opened Lifecycle

  datatype Option<T> = None | Some(value: T)

  class Subscribe {
    /** The stores, shared with the rest of the program. */
    const hub: Hub
    /** The identity of this component's bound `onUpdate` listener. */
    const onUpdate: Listener

    /** The `to` prop: the stores to read, in order. */
    var to: seq<StoreId>
    /** Every store this component has subscribed `onUpdate` to, in order. */
    var stores: seq<StoreId>
    /** How many re-renders `onUpdate` has requested from the host. */
    var renderRequests: nat

    /**
     Every store that holds `onUpdate` is recorded in `stores`, and no store
     holds it more than once.
     */
    ghost predicate Valid()
      reads this`stores, hub`listeners
    {
      Tracked(hub.listeners, stores, onUpdate)
    }

    /**
     A new component on `hub` with listener `onUpdate`, which no store holds
     yet. An absent `to` prop defaults to no stores.
     */
    constructor (hub: Hub, onUpdate: Listener, to: Option<seq<StoreId>>)
      requires forall s :: Count(hub.listeners, s, onUpdate) == 0
      ensures Valid()
      ensures this.hub == hub && this.onUpdate == onUpdate
      ensures this.to == (if to.Some? then to.value else [])
      ensures stores == [] && renderRequests == 0
    {
      this.hub := hub;
      this.onUpdate := onUpdate;
      this.to := if to.Some? then to.value else [];
      stores := [];
      renderRequests := 0;
    }

    /** The parent passes a new `to` prop, or none, which defaults to no stores. */
    method SetTo(to: Option<seq<StoreId>>)
      modifies this`to
      ensures this.to == (if to.Some? then to.value else [])
    {
      this.to := if to.Some? then to.value else [];
    }

    /**
     The callback that `states` maps over `to`: unsubscribe `onUpdate` from
     `store`, subscribe it again, record the store, and read its value.
     */
    method Track(store: StoreId) returns (v: Value)
      modifies this`stores, hub`listeners
      ensures stores == old(stores) + [store]
      ensures hub.listeners == Subscribed(Unsubscribed(old(hub.listeners), store, onUpdate), store, onUpdate)
      ensures v == hub.current(store)
    {
      hub.Unsubscribe(store, onUpdate);
      hub.Subscribe(store, onUpdate);
      stores := stores + [store];
      v := hub.Get(store);
    }

    /**
     The `states` computed property: run `Track` on each store of `to`, in
     order, and collect the values read.
     */
    method States() returns (r: seq<Value>)
      requires Valid()
      modifies this`stores, hub`listeners
      ensures Valid()
      ensures stores == old(stores) + to
      ensures hub.listeners == Resubscribe(old(hub.listeners), to, onUpdate)
      ensures forall s :: s in to ==> Count(hub.listeners, s, onUpdate) == 1
      ensures forall s, x :: x != onUpdate ==> Count(hub.listeners, s, x) == old(Count(hub.listeners, s, x))
      ensures forall s :: s !in to ==> Of(hub.listeners, s) == old(Of(hub.listeners, s))
      ensures |r| == |to| && forall i :: 0 <= i < |to| ==> r[i] == hub.current(to[i])
    {
      ghost var m0, stores0 := hub.listeners, stores;
      var ts := to;
      r := [];
      var i := 0;
      while i < |ts|
        invariant 0 <= i <= |ts|
        invariant stores == stores0 + ts[..i]
        invariant hub.listeners == Resubscribe(m0, ts[..i], onUpdate)
        invariant |r| == i && forall j :: 0 <= j < i ==> r[j] == hub.current(ts[j])
      {
        var v := Track(ts[i]);
        r := r + [v];
        ResubscribeSnoc(m0, ts, i, onUpdate);
        PrefixSnoc(ts, i);
        i := i + 1;
      }
      assert ts[..i] == ts;
      ResubscribeTracked(m0, stores0, ts, onUpdate);
      ResubscribeCounts(m0, ts, onUpdate);
    }

    /**
     `_unsubscribe`: unsubscribe `onUpdate` from every recorded store. Since
     every store holding `onUpdate` is recorded, none holds it afterwards,
     including stores that a later `to` no longer names.
     */
    method Unsubscribe()
      requires Valid()
      modifies hub`listeners
      ensures Valid()
      ensures hub.listeners == DetachAll(old(hub.listeners), stores, onUpdate)
      ensures forall s :: Count(hub.listeners, s, onUpdate) == 0
      ensures forall s, x :: x != onUpdate ==> Count(hub.listeners, s, x) == old(Count(hub.listeners, s, x))
      ensures unchanged(this)
    {
      ghost var m0 := hub.listeners;
      var i := 0;
      while i < |stores|
        invariant 0 <= i <= |stores|
        invariant hub.listeners == DetachAll(m0, stores[..i], onUpdate)
      {
        hub.Unsubscribe(stores[i], onUpdate);
        DetachAllSnoc(m0, stores, i, onUpdate);
        i := i + 1;
      }
      assert stores[..i] == stores;
      DetachAllClears(m0, stores, onUpdate);
      DetachAllEffect(m0, stores, onUpdate);
    }

    /** The `updated` hook: after each update render, tear the registrations down. */
    method Updated()
      requires Valid()
      modifies hub`listeners
      ensures Valid()
      ensures hub.listeners == DetachAll(old(hub.listeners), stores, onUpdate)
      ensures forall s :: Count(hub.listeners, s, onUpdate) == 0
      ensures forall s, x :: x != onUpdate ==> Count(hub.listeners, s, x) == old(Count(hub.listeners, s, x))
      ensures unchanged(this)
    {
      Unsubscribe();
    }

    /** The `beforeDestroy` hook: before removal, tear the registrations down. */
    method BeforeDestroy()
      requires Valid()
      modifies hub`listeners
      ensures Valid()
      ensures hub.listeners == DetachAll(old(hub.listeners), stores, onUpdate)
      ensures forall s :: Count(hub.listeners, s, onUpdate) == 0
      ensures forall s, x :: x != onUpdate ==> Count(hub.listeners, s, x) == old(Count(hub.listeners, s, x))
      ensures unchanged(this)
    {
      Unsubscribe();
    }

    /** `onUpdate`: a store changed; ask the host for one more re-render. */
    method OnUpdate()
      modifies this`renderRequests
      ensures renderRequests == old(renderRequests) + 1
    {
      renderRequests := renderRequests + 1;
    }
  }

  /**
   A component first reads `[x, y]`; its parent then passes `[y]` and it
   re-renders. The store `x`, no longer requested, keeps the registration of
   the first render until the `updated` hook runs, after which no store holds
   `onUpdate`.
   */
  method ReconfigureLifecycle(hub: Hub, onUpdate: Listener, x: StoreId, y: StoreId)
    requires x != y
    requires forall s :: Count(hub.listeners, s, onUpdate) == 0
    modifies hub
  {
    var c := new Subscribe(hub, onUpdate, Some([x, y]));
    var _ := c.States();
    assert Count(hub.listeners, x, onUpdate) == 1 && Count(hub.listeners, y, onUpdate) == 1;

    c.SetTo(Some([y]));
    var _ := c.States();
    assert Count(hub.listeners, x, onUpdate) == 1;

    c.Updated();
    assert Count(hub.listeners, x, onUpdate) == 0 && Count(hub.listeners, y, onUpdate) == 0;
  }

  /**
   A component whose parent passes no `to` reads no store: evaluation
   returns no values and changes neither `stores` nor any registration.
   */
  method DefaultIsInert(hub: Hub, onUpdate: Listener)
    requires forall s :: Count(hub.listeners, s, onUpdate) == 0
    modifies hub
  {
    ghost var before := hub.listeners;
    var c := new Subscribe(hub, onUpdate, None);
    var r := c.States();
    assert r == [] && c.stores == [] && hub.listeners == before;
  }

  /**
   Destroying a component right after an update render tears down again;
   the second teardown gives the same registrations as the first.
   */
  method TeardownTwice(c: Subscribe)
    requires c.Valid()
    modifies c.hub
  {
    ghost var before := c.hub.listeners;
    c.Updated();
    ghost var afterUpdated := c.hub.listeners;
    c.BeforeDestroy();
    DetachAllIdempotent(before, c.stores, c.onUpdate);
    assert c.hub.listeners == afterUpdated;
  }
}
