/**
 * Event mappings as the broker and the test collectors see them: a Python
 * dict from string keys to values, of which only the `event` key is ever
 * inspected.
 */
module Events {

  import opened Wrappers

  /** A Python value, distinguished only as far as the code looks at it. */
  datatype Value = PyNone | PyStr(s: string) | PyOther(id: nat)

  type Event = map<string, Value>

  /** `data.get('event')`: the event name, or `None` when the key is absent. */
  function EventName(data: Event): Value
  {
    if "event" in data then data["event"] else PyNone
  }

  /** Python truthiness of an optional namespace: neither `None` nor `''`. */
  predicate Truthy(ns: Option<string>)
  {
    ns.Some? && ns.value != ""
  }

  /** Outcome of the namespace test that both the broker and the collector apply. */
  datatype Verdict = Accept | Skip | Raise

  /**
   * `namespace and (data.get('event') is None or not data['event'].startswith(namespace))`.
   * The test short-circuits on a falsy namespace; a non-string `event` makes
   * `startswith` raise.
   */
  function Screen(ns: Option<string>, data: Event): Verdict
  {
    if !Truthy(ns) then Accept
    else match EventName(data)
      case PyNone => Skip
      case PyStr(name) => if ns.value <= name then Accept else Skip
      case PyOther(_) => Raise
  }

  /**
   * Without a namespace everything passes; with one, an event passes exactly
   * when its name is a string starting with the namespace, and the test
   * raises only on a name that is neither a string nor `None`.
   */
  lemma ScreenMeaning(ns: Option<string>, data: Event)
    ensures !Truthy(ns) ==> Screen(ns, data) == Accept
    ensures Truthy(ns) ==>
      && (Screen(ns, data) == Accept <==> EventName(data).PyStr? && ns.value <= EventName(data).s)
      && (Screen(ns, data) == Skip <==>
            EventName(data) == PyNone || (EventName(data).PyStr? && !(ns.value <= EventName(data).s)))
      && (Screen(ns, data) == Raise <==> EventName(data).PyOther?)
  {
  }

  /** The events of `evs` that the namespace test accepts, in order. */
  function Matching(ns: Option<string>, evs: seq<Event>): seq<Event>
  {
    if evs == [] then []
    else (if Screen(ns, evs[0]) == Accept then [evs[0]] else []) + Matching(ns, evs[1..])
  }

  lemma {:induction false} MatchingAppend(ns: Option<string>, xs: seq<Event>, ys: seq<Event>)
    ensures Matching(ns, xs + ys) == Matching(ns, xs) + Matching(ns, ys)
  {
    if xs == [] {
      assert xs + ys == ys;
    } else {
      var head := if Screen(ns, xs[0]) == Accept then [xs[0]] else [];
      assert Matching(ns, xs + ys) == head + Matching(ns, xs[1..] + ys) by {
        assert (xs + ys)[0] == xs[0] && (xs + ys)[1..] == xs[1..] + ys;
      }
      MatchingAppend(ns, xs[1..], ys);
    }
  }

  lemma {:induction false} MatchingWithoutNamespace(ns: Option<string>, evs: seq<Event>)
    requires !Truthy(ns)
    ensures Matching(ns, evs) == evs
  {
    if evs != [] {
      MatchingWithoutNamespace(ns, evs[1..]);
      assert evs == [evs[0]] + evs[1..];
    }
  }

  lemma {:induction false} MatchingRespectsNamespace(ns: Option<string>, evs: seq<Event>)
    requires Truthy(ns)
    ensures forall e :: e in Matching(ns, evs) ==> e in evs && EventName(e).PyStr? && ns.value <= EventName(e).s
  {
    if evs != [] {
      ScreenMeaning(ns, evs[0]);
      MatchingRespectsNamespace(ns, evs[1..]);
    }
  }

  /**
   * The mapping `put` hands to the queue: `event` is filled in with `None`
   * only when the caller did not supply it.
   */
  function Put(data: Event): (r: Event)
    ensures r.Keys == data.Keys + {"event"}
    ensures "event" in data ==> r["event"] == data["event"]
    ensures "event" !in data ==> r["event"] == PyNone
    ensures forall k :: k in data && k != "event" ==> r[k] == data[k]
  {
    if "event" !in data then data["event" := PyNone] else data
  }

  /**
   * The defaulting changes neither the name `event_names` reads nor the
   * outcome of the namespace test, whatever the namespace.
   */
  lemma PutKeepsEventName(data: Event, ns: Option<string>)
    ensures EventName(Put(data)) == EventName(data)
    ensures Screen(ns, Put(data)) == Screen(ns, data)
  {
  }

  /** `[event.get('event') for event in events]`. */
  function Names(evs: seq<Event>): (names: seq<Value>)
    ensures |names| == |evs|
    ensures forall i :: 0 <= i < |evs| ==> names[i] == EventName(evs[i])
  {
    if evs == [] then [] else [EventName(evs[0])] + Names(evs[1..])
  }
}
