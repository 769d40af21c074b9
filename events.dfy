/**
 * `EventManager` of public/assets/js/core/EventManager.js: a registry from
 * event names to the callbacks subscribed to them, updated in place.
 *
 * A callback is known by its identity (`!==` compares references), so it is
 * a number here. What a callback does when invoked is outside the model;
 * `publish` records each invocation, and whether it threw is a parameter.
 */
module Events {
  /** The identity of a callback function. */
  type Callback = nat

  /** The object `subscribe` returns: its `unsubscribe` removes this pair. */
  datatype Subscription = Subscription(event: string, callback: Callback)

  /** One call `callback(data)` made by `publish`; `threw` when it raised an exception that was caught and logged. */
  datatype Invocation = Invocation(event: string, callback: Callback, data: string, threw: bool)

  /** The list `filter(cb => cb !== callback)` produces. */
  function Without(callbacks: seq<Callback>, callback: Callback): (r: seq<Callback>)
    ensures callback !in r
    ensures |r| <= |callbacks|
    ensures forall x :: x != callback ==> multiset(r)[x] == multiset(callbacks)[x]
  {
    if callbacks == [] then []
    else
      assert callbacks == [callbacks[0]] + callbacks[1..];
      (if callbacks[0] == callback then [] else [callbacks[0]]) + Without(callbacks[1..], callback)
  }

  /** Filtering works piece by piece, so the callbacks that stay keep their order. */
  lemma {:induction false} WithoutConcat(s: seq<Callback>, t: seq<Callback>, callback: Callback)
    ensures Without(s + t, callback) == Without(s, callback) + Without(t, callback)
  {
    if s != [] {
      assert (s + t)[1..] == s[1..] + t;
      WithoutConcat(s[1..], t, callback);
    } else {
      assert s + t == t;
    }
  }

  /** Filtering out a callback that is not subscribed leaves the list as it was. */
  lemma {:induction false} WithoutAbsent(s: seq<Callback>, callback: Callback)
    requires callback !in s
    ensures Without(s, callback) == s
  {
    if s != [] {
      WithoutAbsent(s[1..], callback);
    }
  }

  class EventManager {
    var events: map<string, seq<Callback>>
    /** The calls `publish` has made so far, in order. */
    var invocations: seq<Invocation>

    /** No event is stored with an empty callback list. */
    predicate Valid()
      reads this
    {
      forall e :: e in events ==> |events[e]| > 0
    }

    constructor ()
      ensures Valid() && events == map[] && invocations == []
    {
      events := map[];
      invocations := [];
    }

    /**
     * `subscribe`: the callback is appended at the end of the event's list
     * (created when missing); other events are untouched, and the returned
     * handle names the pair.
     */
    method Subscribe(event: string, callback: Callback) returns (handle: Subscription)
      requires Valid()
      modifies this`events
      ensures Valid()
      ensures events == old(events)[event := (if event in old(events) then old(events)[event] else []) + [callback]]
      ensures handle == Subscription(event, callback)
    {
      if event !in events {
        events := events[event := []];
      }
      events := events[event := events[event] + [callback]];
      handle := Subscription(event, callback);
    }

    /**
     * `unsubscribe`: an unknown event changes nothing; otherwise every
     * occurrence of the callback leaves the event's list, and the event is
     * deleted when its list becomes empty.
     */
    method Unsubscribe(event: string, callback: Callback)
      requires Valid()
      modifies this`events
      ensures Valid()
      ensures event !in old(events) ==> events == old(events)
      ensures event in old(events) ==>
                var rest := Without(old(events)[event], callback);
                events == if rest == [] then old(events) - {event} else old(events)[event := rest]
    {
      if event !in events {
        return;
      }
      events := events[event := Without(events[event], callback)];
      if |events[event]| == 0 {
        events := events - {event};
      }
    }

    /** The handle's `unsubscribe`. */
    method Cancel(handle: Subscription)
      requires Valid()
      modifies this`events
      ensures Valid()
      ensures handle.event !in old(events) ==> events == old(events)
      ensures handle.event in old(events) ==>
                var rest := Without(old(events)[handle.event], handle.callback);
                events == if rest == [] then old(events) - {handle.event} else old(events)[handle.event := rest]
    {
      Unsubscribe(handle.event, handle.callback);
    }

    /**
     * `publish`: every callback of the event is called with `data`, in
     * subscription order; one that throws is logged and the rest still run.
     * An unknown event calls nothing.
     */
    method Publish(event: string, data: string, throws: Callback -> bool)
      requires Valid()
      modifies this`invocations
      ensures Valid()
      ensures event !in events ==> invocations == old(invocations)
      ensures event in events ==>
                var cbs := events[event];
                && |invocations| == |old(invocations)| + |cbs|
                && invocations[..|old(invocations)|] == old(invocations)
                && forall k :: 0 <= k < |cbs| ==>
                     invocations[|old(invocations)| + k] == Invocation(event, cbs[k], data, throws(cbs[k]))
    {
      if event !in events {
        return;
      }
      var callbacks := events[event];
      var i := 0;
      while i < |callbacks|
        invariant 0 <= i <= |callbacks|
        invariant |invocations| == |old(invocations)| + i
        invariant invocations[..|old(invocations)|] == old(invocations)
        invariant forall k :: 0 <= k < i ==>
                    invocations[|old(invocations)| + k] == Invocation(event, callbacks[k], data, throws(callbacks[k]))
      {
        // the call, and the `catch` that logs its exception and carries on
        invocations := invocations + [Invocation(event, callbacks[i], data, throws(callbacks[i]))];
        i := i + 1;
      }
    }

    /** `clear`: no events remain. */
    method Clear()
      modifies this`events
      ensures Valid() && events == map[]
    {
      events := map[];
    }
  }

  /** Subscribing the same callback twice stores it twice. */
  method SubscribeTwice(m: EventManager, event: string, callback: Callback)
    requires m.Valid()
    modifies m`events
    ensures m.Valid() && event in m.events
    ensures multiset(m.events[event])[callback]
            == (if event in old(m.events) then multiset(old(m.events)[event])[callback] else 0) + 2
  {
    var _ := m.Subscribe(event, callback);
    var _ := m.Subscribe(event, callback);
  }

  /**
   * Subscribing and then calling the handle's `unsubscribe` leaves the
   * callback in no list of that event, deletes the event if nothing else was
   * subscribed to it, and restores every other event.
   */
  method SubscribeThenCancel(m: EventManager, event: string, callback: Callback)
    requires m.Valid()
    modifies m`events
    ensures m.Valid()
    ensures forall e :: e != event ==> (e in m.events <==> e in old(m.events))
    ensures forall e :: e != event && e in m.events ==> m.events[e] == old(m.events)[e]
    ensures event in m.events ==> callback !in m.events[event]
    ensures event !in old(m.events) ==> m.events == old(m.events)
    ensures event in old(m.events) && callback !in old(m.events)[event] ==> m.events == old(m.events)
  {
    var handle := m.Subscribe(event, callback);
    ghost var before := if event in old(m.events) then old(m.events)[event] else [];
    WithoutConcat(before, [callback], callback);
    assert Without([callback], callback) == [];
    if callback !in before {
      WithoutAbsent(before, callback);
      assert Without(before + [callback], callback) == before;
    }
    ghost var subscribed := m.events;
    m.Cancel(handle);
    if event in old(m.events) && callback !in before {
      assert |before| > 0;
      assert m.events == subscribed[event := before];
      assert m.events == old(m.events);
    }
  }
}
