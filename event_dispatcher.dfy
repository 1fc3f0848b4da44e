/**
 * The typed listener registry of src/logic/events/EventDispatcher.ts.
 *
 * Each event name owns a bucket: a JavaScript `Set` of listeners, which
 * keeps insertion order and holds each listener once. It is modelled as a
 * duplicate-free sequence. Listener functions are opaque: a listener is
 * identified by an id, and `once` wraps a listener in a fresh closure,
 * modelled as a wrapper carrying a token no earlier wrapper has.
 */
module Events {

  type EventName = string

  datatype Listener =
    | Direct(id: int)
    | OnceWrapper(token: nat, inner: int)

  /** The user listener a registered listener ends up calling. */
  function Target(l: Listener): int
  {
    if l.Direct? then l.id else l.inner
  }

  predicate Distinct(s: seq<Listener>)
  {
    forall i, j :: 0 <= i < j < |s| ==> s[i] != s[j]
  }

  /** `Set.add`: appends a listener not yet present; a present one keeps its place. */
  function Add(bucket: seq<Listener>, l: Listener): (r: seq<Listener>)
    ensures forall x :: x in r <==> x in bucket || x == l
    ensures Distinct(bucket) ==> Distinct(r)
  {
    if l in bucket then bucket else bucket + [l]
  }

  /** `Set.delete`: removes a listener and keeps the others in order. */
  function Remove(bucket: seq<Listener>, l: Listener): (r: seq<Listener>)
    ensures forall x :: x in r <==> x in bucket && x != l
    ensures |r| <= |bucket|
    ensures Distinct(bucket) ==> Distinct(r)
  {
    if bucket == [] then []
    else
      var rest := Remove(bucket[1..], l);
      assert forall x :: x in bucket[1..] ==> x in bucket;
      assert Distinct(bucket) ==> Distinct(bucket[1..]) && bucket[0] !in bucket[1..];
      if bucket[0] == l then rest else [bucket[0]] + rest
  }

  /** Every bucket is non-empty and free of duplicates. */
  predicate WellFormed(m: map<EventName, seq<Listener>>)
  {
    forall e :: e in m ==> m[e] != [] && Distinct(m[e])
  }

  /** The registry after `on(event, listener)`: a missing bucket is created first. */
  function OnMap(m: map<EventName, seq<Listener>>, e: EventName, l: Listener): (r: map<EventName, seq<Listener>>)
    ensures e in r && l in r[e]
    ensures forall x :: x in r[e] <==> x == l || (e in m && x in m[e])
    ensures forall k :: k != e ==> (k in r <==> k in m) && (k in m ==> r[k] == m[k])
    ensures WellFormed(m) ==> WellFormed(r)
  {
    m[e := Add(if e in m then m[e] else [], l)]
  }

  /**
   * The registry after `off(event, listener)`: no bucket means no change,
   * and a bucket left empty is deleted.
   */
  function OffMap(m: map<EventName, seq<Listener>>, e: EventName, l: Listener): (r: map<EventName, seq<Listener>>)
    ensures e !in m ==> r == m
    ensures e in r ==> e in m && forall x :: x in r[e] <==> x in m[e] && x != l
    ensures e in m && e !in r ==> forall x :: x in m[e] ==> x == l
    ensures forall k :: k != e ==> (k in r <==> k in m) && (k in m ==> r[k] == m[k])
    ensures WellFormed(m) ==> WellFormed(r)
  {
    if e !in m then m
    else
      var b := Remove(m[e], l);
      if b == [] then m - {e} else m[e := b]
  }

  /** Removing the last element of a bucket that held it once gives back the rest. */
  lemma {:induction false} RemoveAppended(b: seq<Listener>, l: Listener)
    requires l !in b
    ensures Remove(b + [l], l) == b
    decreases |b|
  {
    if b == [] {
      assert Remove([l], l) == Remove([], l);
    } else {
      assert (b + [l])[1..] == b[1..] + [l];
      RemoveAppended(b[1..], l);
      assert [b[0]] + b[1..] == b;
    }
  }

  /**
   * `on` followed by the unsubscribe function it returns restores the
   * registry, provided the listener was not registered for that event.
   */
  lemma OffUndoesOn(m: map<EventName, seq<Listener>>, e: EventName, l: Listener)
    requires WellFormed(m)
    requires e !in m || l !in m[e]
    ensures OffMap(OnMap(m, e, l), e, l) == m
  {
    var b := if e in m then m[e] else [];
    var n := m[e := b + [l]];
    assert Add(b, l) == b + [l];
    assert OnMap(m, e, l) == n;
    RemoveAppended(b, l);
    if e in m {
      assert b != [];
      assert OffMap(n, e, l) == n[e := b];
      assert n[e := b] == m;
    } else {
      assert OffMap(n, e, l) == n - {e};
      assert n - {e} == m;
    }
  }

  /**
   * The registry after the once-wrappers among `fired` have each removed
   * themselves, in order, as they do when a dispatch runs them.
   */
  function OffOnces(m: map<EventName, seq<Listener>>, e: EventName, fired: seq<Listener>): map<EventName, seq<Listener>>
    decreases |fired|
  {
    if fired == [] then m
    else
      var before := OffOnces(m, e, fired[..|fired| - 1]);
      var last := fired[|fired| - 1];
      if last.OnceWrapper? then OffMap(before, e, last) else before
  }

  /**
   * After the wrappers removed themselves, the event's bucket holds exactly
   * the listeners it held before except those once-wrappers, and other
   * events are untouched.
   */
  lemma {:induction false} OffOncesContents(m: map<EventName, seq<Listener>>, e: EventName, fired: seq<Listener>)
    ensures forall k :: k != e ==>
      (k in OffOnces(m, e, fired) <==> k in m) && (k in m ==> OffOnces(m, e, fired)[k] == m[k])
    ensures e in OffOnces(m, e, fired) ==>
      e in m && forall x :: x in OffOnces(m, e, fired)[e] <==> x in m[e] && !(x.OnceWrapper? && x in fired)
    ensures e in m && e !in OffOnces(m, e, fired) ==>
      forall x :: x in m[e] ==> x.OnceWrapper? && x in fired
    decreases |fired|
  {
    if fired != [] {
      var prefix := fired[..|fired| - 1];
      OffOncesContents(m, e, prefix);
      assert forall x :: x in fired <==> x in prefix || x == fired[|fired| - 1] by {
        assert fired == prefix + [fired[|fired| - 1]];
      }
    }
  }

  /** The closure `on` returns: calling it unregisters the same listener from the same event. */
  datatype Subscription = Subscription(event: EventName, listener: Listener)

  class EventDispatcher {
    var listeners: map<EventName, seq<Listener>>
    /** The token the next `once` wrapper gets; earlier wrappers have smaller ones. */
    var nextToken: nat

    ghost predicate Valid()
      reads this
    {
      WellFormed(listeners) &&
      forall e, l :: e in listeners && l in listeners[e] && l.OnceWrapper? ==> l.token < nextToken
    }

    constructor ()
      ensures Valid()
      ensures listeners == map[]
    {
      listeners := map[];
      nextToken := 0;
    }

    /** `on`: registers the listener and returns its unsubscribe function. */
    method On(e: EventName, l: Listener) returns (unsubscribe: Subscription)
      requires Valid()
      requires l.OnceWrapper? ==> l.token < nextToken
      modifies this`listeners
      ensures Valid()
      ensures listeners == OnMap(old(listeners), e, l)
      ensures unsubscribe == Subscription(e, l)
    {
      var bucket := if e in listeners then listeners[e] else [];
      listeners := listeners[e := Add(bucket, l)];
      unsubscribe := Subscription(e, l);
    }

    /**
     * `once`: registers a fresh wrapper around the listener. The wrapper is
     * new, so it is registered even when the same listener already is.
     */
    method Once(e: EventName, listener: int) returns (unsubscribe: Subscription)
      requires Valid()
      modifies this
      ensures Valid()
      ensures nextToken == old(nextToken) + 1
      ensures unsubscribe == Subscription(e, OnceWrapper(old(nextToken), listener))
      ensures listeners == OnMap(old(listeners), e, unsubscribe.listener)
      ensures e !in old(listeners) || unsubscribe.listener !in old(listeners)[e]
    {
      var wrapped := OnceWrapper(nextToken, listener);
      nextToken := nextToken + 1;
      unsubscribe := On(e, wrapped);
    }

    /** `off`: unregisters the listener and drops the bucket once it is empty. */
    method Off(e: EventName, l: Listener)
      requires Valid()
      modifies this`listeners
      ensures Valid()
      ensures listeners == OffMap(old(listeners), e, l)
    {
      if e !in listeners {
        return;
      }
      var bucket := Remove(listeners[e], l);
      if bucket == [] {
        listeners := listeners - {e};
      } else {
        listeners := listeners[e := bucket];
      }
    }

    /** Calling an unsubscribe function returned by `on` or `once`. */
    method Unsubscribe(u: Subscription)
      requires Valid()
      modifies this`listeners
      ensures Valid()
      ensures listeners == OffMap(old(listeners), u.event, u.listener)
    {
      Off(u.event, u.listener);
    }

    /** `clear`: every bucket is dropped. */
    method Clear()
      requires Valid()
      modifies this`listeners
      ensures Valid()
      ensures listeners == map[]
    {
      listeners := map[];
    }

    /**
     * `dispatch`: calls, in order, the listeners the bucket held when the
     * dispatch started (a snapshot copy), and nothing when there is no
     * bucket. A once-wrapper first unregisters itself and then calls the
     * listener it wraps. `called` lists the user listeners invoked.
     * What a direct listener's own body does is not modelled.
     */
    method Dispatch(e: EventName) returns (called: seq<int>)
      requires Valid()
      modifies this`listeners
      ensures Valid()
      ensures e !in old(listeners) ==> called == [] && listeners == old(listeners)
      ensures e in old(listeners) ==>
        |called| == |old(listeners)[e]| &&
        (forall k :: 0 <= k < |called| ==> called[k] == Target(old(listeners)[e][k])) &&
        listeners == OffOnces(old(listeners), e, old(listeners)[e])
    {
      if e !in listeners {
        return [];
      }
      var snapshot := listeners[e];
      called := [];
      var i := 0;
      while i < |snapshot|
        invariant 0 <= i <= |snapshot|
        invariant Valid()
        invariant |called| == i
        invariant forall k :: 0 <= k < i ==> called[k] == Target(snapshot[k])
        invariant listeners == OffOnces(old(listeners), e, snapshot[..i])
      {
        var l := snapshot[i];
        assert snapshot[..i + 1][..i] == snapshot[..i];
        if l.OnceWrapper? {
          Off(e, l);
        }
        called := called + [Target(l)];
        i := i + 1;
      }
      assert snapshot[..i] == snapshot;
    }
  }

  /**
   * A dispatch fires each once-wrapper a single time: afterwards none of
   * the wrappers it ran is registered for the event, while every direct
   * listener it ran still is.
   */
  lemma DispatchRetiresOnceListeners(m: map<EventName, seq<Listener>>, e: EventName)
    requires e in m
    ensures forall l :: l in m[e] && l.OnceWrapper? ==>
      e !in OffOnces(m, e, m[e]) || l !in OffOnces(m, e, m[e])[e]
    ensures forall l :: l in m[e] && l.Direct? ==>
      e in OffOnces(m, e, m[e]) && l in OffOnces(m, e, m[e])[e]
  {
    OffOncesContents(m, e, m[e]);
  }
}
