/**
 The external stores the adapter observes, described only by the contract the
 adapter relies on: `subscribe(listener)` adds one registration of `listener`,
 `unsubscribe(listener)` removes the listener (and does nothing when it is not
 registered), and `get()` returns the store's current value.

 Stores are identified by opaque ids: the same reference is the same id, and so
 the same set of registrations. The registrations of every store are kept in
 one map from store id to the multiset of listeners registered on it; a store
 with no entry has no listener.
 */
module Stores {

  type StoreId(==, !new)
  type Listener(==, !new)
  type Value

  type Registrations = map<StoreId, multiset<Listener>>

  /** The listeners registered on store `s`. */
  function Of(m: Registrations, s: StoreId): multiset<Listener>
  {
    if s in m then m[s] else multiset{}
  }

  /** How many times listener `l` is registered on store `s`. */
  function Count(m: Registrations, s: StoreId, l: Listener): nat
  {
    Of(m, s)[l]
  }

  /**
   The registrations after `s.unsubscribe(l)`: the listener is removed, and
   unsubscribing from a store that does not hold it does nothing.
   */
  function Unsubscribed(m: Registrations, s: StoreId, l: Listener): Registrations
  {
    if s in m then m[s := m[s][l := 0]] else m
  }

  /** The registrations after `s.subscribe(l)`: one more registration of `l`. */
  function Subscribed(m: Registrations, s: StoreId, l: Listener): Registrations
  {
    m[s := Of(m, s) + multiset{l}]
  }

  /**
   Unsubscribing `l` from `s` leaves no registration of `l` on `s`, keeps the
   other listeners of `s`, leaves every other store as it was, and adds no store.
   */
  lemma UnsubscribedEffect(m: Registrations, s: StoreId, l: Listener)
    ensures Count(Unsubscribed(m, s, l), s, l) == 0
    ensures forall x :: x != l ==> Count(Unsubscribed(m, s, l), s, x) == Count(m, s, x)
    ensures forall t :: t != s ==> Of(Unsubscribed(m, s, l), t) == Of(m, t)
    ensures Unsubscribed(m, s, l).Keys == m.Keys
  {
  }

  /**
   Subscribing `l` to `s` adds exactly one registration of `l` on `s`, keeps
   the other listeners of `s`, and leaves every other store as it was.
   */
  lemma SubscribedEffect(m: Registrations, s: StoreId, l: Listener)
    ensures Count(Subscribed(m, s, l), s, l) == Count(m, s, l) + 1
    ensures forall x :: x != l ==> Count(Subscribed(m, s, l), s, x) == Count(m, s, x)
    ensures forall t :: t != s ==> Of(Subscribed(m, s, l), t) == Of(m, t)
    ensures Subscribed(m, s, l).Keys == m.Keys + {s}
  {
  }

  /** Unsubscribing then subscribing leaves exactly one registration of `l`. */
  lemma ResubscribeOne(ms: multiset<Listener>, l: Listener)
    ensures ms[l := 0] + multiset{l} == ms[l := 1]
  {
  }

  /** Setting the multiplicity of `l` twice keeps only the second setting. */
  lemma SetTwice(ms: multiset<Listener>, l: Listener, a: nat, b: nat)
    ensures ms[l := a][l := b] == ms[l := b]
  {
  }

  /** Setting the multiplicity of `l` to what it already is changes nothing. */
  lemma SetSame(ms: multiset<Listener>, l: Listener)
    ensures ms[l := ms[l]] == ms
  {
  }

  /**
   The stores themselves: their registrations and the value `get()` returns
   for each of them.
   */
  class Hub {
    var listeners: Registrations
    var current: StoreId -> Value

    constructor (current: StoreId -> Value)
      ensures listeners == map[] && this.current == current
    {
      listeners := map[];
      this.current := current;
    }

    /** `s.subscribe(l)` */
    method Subscribe(s: StoreId, l: Listener)
      modifies this`listeners
      ensures listeners == Subscribed(old(listeners), s, l)
    {
      listeners := Subscribed(listeners, s, l);
    }

    /** `s.unsubscribe(l)` */
    method Unsubscribe(s: StoreId, l: Listener)
      modifies this`listeners
      ensures listeners == Unsubscribed(old(listeners), s, l)
    {
      listeners := Unsubscribed(listeners, s, l);
    }

    /** `s.get()` */
    method Get(s: StoreId) returns (v: Value)
      ensures v == current(s)
    {
      v := current(s);
    }
  }
}
