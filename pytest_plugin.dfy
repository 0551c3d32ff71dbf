/**
 * The event collector of the `quart_events` pytest plugin: like the older
 * collector, but it skips events outside its namespace.
 */
module PytestPlugin {

  import opened Wrappers
  import opened Events
  import PytestQuartEvents

  /** `_getini`: an empty configured string falls back to the default. */
  function GetIni(configured: string, default: Option<string>): (r: Option<string>)
    ensures configured != "" ==> r == Some(configured)
    ensures configured == "" ==> r == default
  {
    if |configured| > 0 then Some(configured) else default
  }

  /**
   * How `run` ends: it returns once enough events arrived (`Reached`), it
   * returns because the catcher's subscription ended first (`Ended`), the
   * timeout fires (`TimedOut`), or `startswith` raised on a non-string
   * `event` (`Raised`).
   */
  datatype Outcome = Reached | Ended | TimedOut | Raised

  datatype Caught = Caught(events: seq<Event>, outcome: Outcome)

  /**
   * `run` from `acc` onwards over the events that arrive before the timeout;
   * `ended` says whether the subscription ended on its own after `input`.
   */
  function Collect(ns: Option<string>, expected: int, acc: seq<Event>, input: seq<Event>, ended: bool): Caught
    decreases |input|
  {
    if input == [] then Caught(acc, if ended then Ended else TimedOut)
    else match Screen(ns, input[0])
      case Raise => Caught(acc, Raised)
      case Skip => Collect(ns, expected, acc, input[1..], ended)
      case Accept =>
        var acc' := acc + [input[0]];
        if |acc'| >= expected then Caught(acc', Reached) else Collect(ns, expected, acc', input[1..], ended)
  }

  /**
   * The events collected are `acc` followed by the first events of the
   * input that pass the namespace test, in arrival order.
   */
  lemma {:induction false} CollectKeepsOrder(ns: Option<string>, expected: int, acc: seq<Event>, input: seq<Event>, ended: bool)
    ensures var got := Collect(ns, expected, acc, input, ended).events;
      acc <= got && got[|acc|..] <= Matching(ns, input)
    decreases |input|
  {
    if input != [] && Screen(ns, input[0]) != Raise {
      var x, rest := input[0], input[1..];
      var got := Collect(ns, expected, acc, input, ended).events;
      if Screen(ns, x) == Skip {
        CollectKeepsOrder(ns, expected, acc, rest, ended);
      } else if |acc| + 1 < expected {
        CollectKeepsOrder(ns, expected, acc + [x], rest, ended);
        assert got[|acc|..] == [x] + got[|acc| + 1..];
      } else {
        assert got[|acc|..] == [x];
      }
    }
  }

  /**
   * On a timeout, or when the subscription ended first, the whole input was
   * read: every accepted event was collected.
   */
  lemma {:induction false} ExhaustedCollectsAllMatching(ns: Option<string>, expected: int, acc: seq<Event>, input: seq<Event>, ended: bool)
    requires Collect(ns, expected, acc, input, ended).outcome in {TimedOut, Ended}
    ensures Collect(ns, expected, acc, input, ended).events == acc + Matching(ns, input)
    decreases |input|
  {
    if input != [] {
      var rest := input[1..];
      var verdict := Screen(ns, input[0]);
      var acc' := if verdict == Accept then acc + [input[0]] else acc;
      ExhaustedCollectsAllMatching(ns, expected, acc', rest, ended);
      assert input == [input[0]] + rest;
    }
  }

  /**
   * Starting below the target, `run` never holds more than `max(expected, 1)`
   * events: it returns with exactly that many when it reaches the target,
   * and with fewer when it ends any other way. It returns because the
   * subscription ended only when it did, and times out only when it did not.
   */
  lemma {:induction false} CollectBounded(ns: Option<string>, expected: int, acc: seq<Event>, input: seq<Event>, ended: bool)
    requires |acc| < PytestQuartEvents.Max(expected, 1)
    ensures Collect(ns, expected, acc, input, ended).outcome == Reached ==>
      |Collect(ns, expected, acc, input, ended).events| == PytestQuartEvents.Max(expected, 1)
    ensures Collect(ns, expected, acc, input, ended).outcome != Reached ==>
      |Collect(ns, expected, acc, input, ended).events| < PytestQuartEvents.Max(expected, 1)
    ensures Collect(ns, expected, acc, input, ended).outcome == Ended ==> ended
    ensures Collect(ns, expected, acc, input, ended).outcome == TimedOut ==> !ended
    decreases |input|
  {
    if input != [] {
      match Screen(ns, input[0])
      case Raise =>
      case Skip =>
        CollectBounded(ns, expected, acc, input[1..], ended);
      case Accept =>
        if |acc| + 1 < expected {
          CollectBounded(ns, expected, acc + [input[0]], input[1..], ended);
        }
    }
  }

  /** With a non-empty namespace, every event collected after `acc` carries a name under it. */
  lemma {:induction false} CollectRespectsNamespace(ns: Option<string>, expected: int, acc: seq<Event>, input: seq<Event>, ended: bool)
    requires Truthy(ns)
    ensures var got := Collect(ns, expected, acc, input, ended).events;
      acc <= got &&
      forall i :: |acc| <= i < |got| ==> EventName(got[i]).PyStr? && ns.value <= EventName(got[i]).s
    decreases |input|
  {
    if input != [] {
      match Screen(ns, input[0])
      case Raise =>
      case Skip =>
        CollectRespectsNamespace(ns, expected, acc, input[1..], ended);
      case Accept =>
        var acc' := acc + [input[0]];
        if |acc'| < expected {
          CollectRespectsNamespace(ns, expected, acc', input[1..], ended);
        }
    }
  }

  /** Without a namespace, this collector behaves exactly like the unfiltered one. */
  lemma {:induction false} UnfilteredAgrees(ns: Option<string>, expected: int, acc: seq<Event>, input: seq<Event>, ended: bool)
    requires !Truthy(ns)
    ensures Collect(ns, expected, acc, input, ended).events == PytestQuartEvents.Collect(expected, acc, input, ended).events
    ensures Collect(ns, expected, acc, input, ended).outcome == Reached <==>
      PytestQuartEvents.Collect(expected, acc, input, ended).outcome == PytestQuartEvents.Reached
    ensures Collect(ns, expected, acc, input, ended).outcome == Ended <==>
      PytestQuartEvents.Collect(expected, acc, input, ended).outcome == PytestQuartEvents.Ended
    ensures Collect(ns, expected, acc, input, ended).outcome != Raised
    decreases |input|
  {
    if input != [] {
      var acc' := acc + [input[0]];
      if |acc'| < expected {
        UnfilteredAgrees(ns, expected, acc', input[1..], ended);
      }
    }
  }

  /** The four events the test application's `/generate` route publishes, in order. */
  function Generated(): seq<Event>
  {
    [ map["data" := PyStr("1c1c5907-d262-468c-9eca-34092fd87b06"), "event" := PyStr("ns0:test0")],
      map["data" := PyStr("8e7e1f98-9df1-42cf-8896-aeba658053d3"), "event" := PyStr("ns0:test1")],
      map["data" := PyStr("30db7186-e66a-43eb-a32a-d0311ca8d153"), "event" := PyStr("ns1:test2")],
      map["data" := PyStr("6ca404d0-7416-4409-aa2a-c9120360c04f"), "event" := PyStr("ns1:test3")] ]
  }

  lemma GeneratedScreens()
    ensures Screen(Some("ns0"), Generated()[0]) == Accept && Screen(Some("ns0"), Generated()[1]) == Accept
    ensures Screen(Some("ns1"), Generated()[0]) == Skip && Screen(Some("ns1"), Generated()[1]) == Skip
    ensures Screen(Some("ns1"), Generated()[2]) == Accept && Screen(Some("ns1"), Generated()[3]) == Accept
  {
    var g := Generated();
    assert EventName(g[0]) == PyStr("ns0:test0") && EventName(g[1]) == PyStr("ns0:test1");
    assert EventName(g[2]) == PyStr("ns1:test2") && EventName(g[3]) == PyStr("ns1:test3");
    assert "ns0:test0"[2] != "ns1"[2] && "ns0:test1"[2] != "ns1"[2];
  }

  /**
   * Collecting two events under `ns0`, or under `ns1`, from that burst keeps
   * exactly the two events of that namespace, in publication order, whether
   * or not the subscription ends afterwards.
   */
  lemma NamespacedScenario(ended: bool)
    ensures Collect(Some("ns0"), 2, [], Generated(), ended) == Caught(Generated()[..2], Reached)
    ensures Collect(Some("ns1"), 2, [], Generated(), ended) == Caught(Generated()[2..], Reached)
  {
    var g := Generated();
    GeneratedScreens();
    assert g[1..][0] == g[1] && g[2..][0] == g[2] && g[2..][1..][0] == g[3];
    assert g[..2] == [] + [g[0]] + [g[1]];
    assert g[2..] == [] + [g[2]] + [g[3]];
  }

  class CaughtEvents {
    const expected: int
    const timeout: int
    const namespace: Option<string>
    var events: seq<Event>

    constructor (expected: int, timeout: int, namespace: Option<string>)
      ensures this.expected == expected && this.timeout == timeout && this.namespace == namespace
      ensures events == []
    {
      this.expected, this.timeout, this.namespace := expected, timeout, namespace;
      events := [];
    }

    /**
     * `run`: reset the list, then append each received event that passes
     * the namespace test, returning once there are `expected` of them.
     * `input` lists the events that arrive before the timeout, and `ended`
     * says whether the subscription then ended.
     */
    method Run(input: seq<Event>, ended: bool) returns (outcome: Outcome)
      modifies this`events
      ensures Caught(events, outcome) == Collect(namespace, expected, [], input, ended)
    {
      events := [];
      var i := 0;
      while i < |input|
        invariant 0 <= i <= |input|
        invariant Collect(namespace, expected, [], input, ended) == Collect(namespace, expected, events, input[i..], ended)
      {
        assert input[i..][0] == input[i] && input[i..][1..] == input[i + 1..];
        var verdict := Screen(namespace, input[i]);
        if verdict == Raise {
          return Raised;
        }
        if verdict == Accept {
          events := events + [input[i]];
          if |events| >= expected {
            return Reached;
          }
        }
        i := i + 1;
      }
      return if ended then Ended else TimedOut;
    }

    /** `__len__`. */
    function Len(): (n: nat)
      reads this
      ensures n == |EventNames()|
    {
      |events|
    }

    /** `event_names`: the `event` field of each collected event, or `None`. */
    function EventNames(): (names: seq<Value>)
      reads this
      ensures |names| == |events|
      ensures forall i :: 0 <= i < |events| ==> names[i] == EventName(events[i])
    {
      Names(events)
    }

    /** `assert_events`: passes exactly when `xs` lists the collected names in order. */
    predicate AssertEvents(xs: seq<Value>)
      reads this
      ensures AssertEvents(xs) <==> |xs| == |events| && forall i :: 0 <= i < |xs| ==> xs[i] == EventName(events[i])
    {
      xs == EventNames()
    }
  }
}
