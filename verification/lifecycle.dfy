/**
 What the adapter's two loops do to the registrations of its listener `l`,
 as functions of the registrations before them: evaluation resubscribes `l`
 to each requested store in order, teardown unsubscribes `l` from each
 recorded store in order.
 */
module Lifecycle {
  import opened Stores

  /**
   The registrations after, for each store of `to` in order, unsubscribing `l`
   and then subscribing it again.
   */
  function Resubscribe(m: Registrations, to: seq<StoreId>, l: Listener): Registrations
    decreases |to|
  {
    if to == [] then m
    else
      var s := to[|to| - 1];
      Subscribed(Unsubscribed(Resubscribe(m, to[..|to| - 1], l), s, l), s, l)
  }

  /** The registrations after unsubscribing `l` from each store of `stores` in order. */
  function DetachAll(m: Registrations, stores: seq<StoreId>, l: Listener): Registrations
    decreases |stores|
  {
    if stores == [] then m
    else Unsubscribed(DetachAll(m, stores[..|stores| - 1], l), stores[|stores| - 1], l)
  }

  /** A prefix one element longer is the shorter prefix and that element. */
  lemma PrefixSnoc<T>(s: seq<T>, i: nat)
    requires i < |s|
    ensures s[..i + 1] == s[..i] + [s[i]]
  {
  }

  /** Resubscribing over one more store of `to` is one more unsubscribe and subscribe. */
  lemma ResubscribeSnoc(m: Registrations, to: seq<StoreId>, i: nat, l: Listener)
    requires i < |to|
    ensures Resubscribe(m, to[..i + 1], l) == Subscribed(Unsubscribed(Resubscribe(m, to[..i], l), to[i], l), to[i], l)
  {
    assert to[..i + 1][..i] == to[..i];
  }

  /** Unsubscribing from one more store of `stores` is one more unsubscribe. */
  lemma DetachAllSnoc(m: Registrations, stores: seq<StoreId>, i: nat, l: Listener)
    requires i < |stores|
    ensures DetachAll(m, stores[..i + 1], l) == Unsubscribed(DetachAll(m, stores[..i], l), stores[i], l)
  {
    assert stores[..i + 1][..i] == stores[..i];
  }

  /** One step of ResubscribeEffect: the store resubscribed last. */
  lemma ResubscribeLast(m: Registrations, prev: Registrations, init: seq<StoreId>, last: StoreId, l: Listener)
    requires Of(prev, last) == if last in init then Of(m, last)[l := 1] else Of(m, last)
    ensures Of(Subscribed(Unsubscribed(prev, last, l), last, l), last) == Of(m, last)[l := 1]
  {
  }

  /**
   The effect of resubscribing over `to`: every store of `to` holds exactly one
   registration of `l`, however often it occurs in `to` and however often it
   was registered before; its other listeners and every other store are as they were.
   */
  lemma {:induction false} ResubscribeEffect(m: Registrations, to: seq<StoreId>, l: Listener)
    ensures forall s :: Of(Resubscribe(m, to, l), s) == if s in to then Of(m, s)[l := 1] else Of(m, s)
    decreases |to|
  {
    if to != [] {
      var init, last := to[..|to| - 1], to[|to| - 1];
      assert to == init + [last];
      ResubscribeEffect(m, init, l);
      var prev := Resubscribe(m, init, l);
      var r := Resubscribe(m, to, l);
      assert r == Subscribed(Unsubscribed(prev, last, l), last, l);
      ResubscribeLast(m, prev, init, last, l);
      forall s | s != last
        ensures Of(r, s) == if s in to then Of(m, s)[l := 1] else Of(m, s)
      {
        assert s in to <==> s in init;
      }
    }
  }

  /** Resubscribing adds an entry for every store of `to` and drops none. */
  lemma {:induction false} ResubscribeKeys(m: Registrations, to: seq<StoreId>, l: Listener)
    ensures Resubscribe(m, to, l).Keys == m.Keys + set s | s in to
    decreases |to|
  {
    if to != [] {
      var init, last := to[..|to| - 1], to[|to| - 1];
      assert to == init + [last];
      ResubscribeKeys(m, init, l);
      assert (set s | s in to) == (set s | s in init) + {last};
    }
  }

  /**
   The effect of unsubscribing over `stores`: no store of `stores` holds `l`
   any more; its other listeners and every other store are as they were, and
   no store is added to or dropped from the map.
   */
  lemma {:induction false} DetachAllEffect(m: Registrations, stores: seq<StoreId>, l: Listener)
    ensures DetachAll(m, stores, l).Keys == m.Keys
    ensures forall s :: Of(DetachAll(m, stores, l), s) == if s in stores then Of(m, s)[l := 0] else Of(m, s)
    decreases |stores|
  {
    if stores != [] {
      var init, last := stores[..|stores| - 1], stores[|stores| - 1];
      assert stores == init + [last];
      DetachAllEffect(m, init, l);
      var prev := DetachAll(m, init, l);
      var r := DetachAll(m, stores, l);
      forall s
        ensures Of(r, s) == if s in stores then Of(m, s)[l := 0] else Of(m, s)
      {
        if s == last {
          assert Of(r, s) == Of(prev, s)[l := 0];
          if s in init {
            SetTwice(Of(m, s), l, 0, 0);
          }
        } else {
          assert s in stores <==> s in init;
        }
      }
    }
  }

  /** Unsubscribing from stores that no longer hold `l` changes nothing. */
  lemma {:induction false} DetachAllNoop(m: Registrations, stores: seq<StoreId>, l: Listener)
    requires forall s :: s in stores ==> Count(m, s, l) == 0
    ensures DetachAll(m, stores, l) == m
    decreases |stores|
  {
    if stores != [] {
      var init, last := stores[..|stores| - 1], stores[|stores| - 1];
      DetachAllNoop(m, init, l);
      assert DetachAll(m, stores, l) == Unsubscribed(m, last, l);
      if last in m {
        assert last in stores && m[last][l] == 0;
        SetSame(m[last], l);
        assert m[last := m[last]] == m;
      }
    }
  }

  /** Unsubscribing twice from the same stores gives the same registrations as once. */
  lemma DetachAllIdempotent(m: Registrations, stores: seq<StoreId>, l: Listener)
    ensures DetachAll(DetachAll(m, stores, l), stores, l) == DetachAll(m, stores, l)
  {
    DetachAllEffect(m, stores, l);
    DetachAllNoop(DetachAll(m, stores, l), stores, l);
  }

  /**
   Resubscribing twice over the same stores gives the same registrations as
   once: repeated evaluation never accumulates registrations.
   */
  lemma ResubscribeIdempotent(m: Registrations, to: seq<StoreId>, l: Listener)
    ensures Resubscribe(Resubscribe(m, to, l), to, l) == Resubscribe(m, to, l)
  {
    var once := Resubscribe(m, to, l);
    var twice := Resubscribe(once, to, l);
    ResubscribeEffect(m, to, l);
    ResubscribeEffect(once, to, l);
    ResubscribeKeys(m, to, l);
    ResubscribeKeys(once, to, l);
    forall s | s in twice
      ensures twice[s] == once[s]
    {
      assert Of(twice, s) == Of(once, s);
    }
  }

  /**
   What resubscribing over `to` means for each store: every store of `to`
   holds `l` exactly once, keeps its other listeners, and every other store
   is untouched.
   */
  lemma ResubscribeCounts(m: Registrations, to: seq<StoreId>, l: Listener)
    ensures forall s :: s in to ==> Count(Resubscribe(m, to, l), s, l) == 1
    ensures forall s, x :: x != l ==> Count(Resubscribe(m, to, l), s, x) == Count(m, s, x)
    ensures forall s :: s !in to ==> Of(Resubscribe(m, to, l), s) == Of(m, s)
  {
    ResubscribeEffect(m, to, l);
    forall s, x | x != l
      ensures Count(Resubscribe(m, to, l), s, x) == Count(m, s, x)
    {
      assert Of(Resubscribe(m, to, l), s) == if s in to then Of(m, s)[l := 1] else Of(m, s);
    }
  }

  /**
   The stores the adapter has recorded cover every registration of `l`, and no
   store holds `l` more than once.
   */
  ghost predicate Tracked(m: Registrations, stores: seq<StoreId>, l: Listener)
  {
    && (forall s :: Count(m, s, l) > 0 ==> s in stores)
    && (forall s :: Count(m, s, l) <= 1)
  }

  /** Resubscribing over `to` and recording `to` keeps every registration of `l` tracked. */
  lemma ResubscribeTracked(m: Registrations, stores: seq<StoreId>, to: seq<StoreId>, l: Listener)
    requires Tracked(m, stores, l)
    ensures Tracked(Resubscribe(m, to, l), stores + to, l)
  {
    ResubscribeEffect(m, to, l);
    forall s
      ensures Count(Resubscribe(m, to, l), s, l) == if s in to then 1 else Count(m, s, l)
    {
    }
  }

  /**
   Unsubscribing from every recorded store leaves no registration of `l`
   anywhere, when the recorded stores track all of them.
   */
  lemma DetachAllClears(m: Registrations, stores: seq<StoreId>, l: Listener)
    requires Tracked(m, stores, l)
    ensures forall s :: Count(DetachAll(m, stores, l), s, l) == 0
  {
    DetachAllEffect(m, stores, l);
    forall s
      ensures Count(DetachAll(m, stores, l), s, l) == 0
    {
      assert Of(DetachAll(m, stores, l), s) == if s in stores then Of(m, s)[l := 0] else Of(m, s);
    }
  }

  /**
   Across evaluations: when the recorded stores track every registration of
   `l`, evaluating over any `to` (which records `to`) and then tearing down
   over everything recorded leaves no registration of `l` anywhere, including
   on stores that an earlier `to` named and this one does not.
   */
  lemma EvaluateThenTeardown(m: Registrations, stores: seq<StoreId>, to: seq<StoreId>, l: Listener)
    requires Tracked(m, stores, l)
    ensures forall s :: Count(DetachAll(Resubscribe(m, to, l), stores + to, l), s, l) == 0
  {
    ResubscribeTracked(m, stores, to, l);
    DetachAllClears(Resubscribe(m, to, l), stores + to, l);
  }
}
