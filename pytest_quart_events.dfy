/**
 * The event collector of the `pytest_quart_events` plugin: it gathers every
 * event the catcher republishes, with no filtering, until it has the count
 * it expects.
 */
module PytestQuartEvents {

  import opened Wrappers
  import opened Events

  /**
   * How `run` ends: it returns once enough events arrived (`Reached`), it
   * returns because the catcher's subscription ended first (`Ended`), or the
   * timeout fires and raises (`TimedOut`).
   */
  datatype Outcome = Reached | Ended | TimedOut

  datatype Caught = Caught(events: seq<Event>, outcome: Outcome)

  /**
   * `run` from `acc` onwards over the events that arrive before the
   * timeout: append each one, and return as soon as there are `expected`.
   * `ended` says whether the subscription ended on its own after `input`;
   * otherwise it was still waiting when the timeout fired.
   */
  function Collect(expected: int, acc: seq<Event>, input: seq<Event>, ended: bool): Caught
    decreases |input|
  {
    if input == [] then Caught(acc, if ended then Ended else TimedOut)
    else
      var acc' := acc + [input[0]];
      if |acc'| >= expected then Caught(acc', Reached) else Collect(expected, acc', input[1..], ended)
  }

  function Max(a: int, b: int): int
  {
    if a < b then b else a
  }

  /**
   * Starting below the target, `run` keeps exactly the first events that
   * arrive, up to `max(expected, 1)` in all. It returns normally with all of
   * them, returns normally with fewer when the subscription ends first, and
   * times out with fewer otherwise.
   */
  lemma {:induction false} CollectIsPrefix(expected: int, acc: seq<Event>, input: seq<Event>, ended: bool)
    requires |acc| < Max(expected, 1)
    ensures var want := Max(expected, 1) - |acc|;
      && Collect(expected, acc, input, ended).events == acc + input[..if |input| < want then |input| else want]
      && (Collect(expected, acc, input, ended).outcome == Reached <==> want <= |input|)
      && (Collect(expected, acc, input, ended).outcome == Ended <==> |input| < want && ended)
      && (Collect(expected, acc, input, ended).outcome == TimedOut <==> |input| < want && !ended)
    decreases |input|
  {
    if input != [] {
      var acc' := acc + [input[0]];
      if |acc'| < expected {
        CollectIsPrefix(expected, acc', input[1..], ended);
        var want := Max(expected, 1) - |acc|;
        var n := if |input| < want then |input| else want;
        assert acc' + input[1..][..n - 1] == acc + input[..n];
      } else {
        assert input[..1] == [input[0]];
      }
    }
  }

  class CaughtEvents {
    const expected: int
    const timeout: int
    /** Stored by the constructor and never consulted. */
    const namespace: Option<string>
    var events: seq<Event>

    constructor (expected: int, timeout: int, namespace: Option<string>)
      ensures this.expected == expected && this.timeout == timeout && this.namespace == namespace
      ensures events == []
    {
      this.expected, this.timeout, this.namespace := expected, timeout, namespace;
      events := [];
    }

    /**
     * `run`: reset the list, then append every event received until there
     * are `expected` of them. `input` lists the events that arrive before
     * the timeout, and `ended` says whether the subscription then ended.
     */
    method Run(input: seq<Event>, ended: bool) returns (outcome: Outcome)
      modifies this`events
      ensures Caught(events, outcome) == Collect(expected, [], input, ended)
    {
      events := [];
      var i := 0;
      while i < |input|
        invariant 0 <= i <= |input|
        invariant Collect(expected, [], input, ended) == Collect(expected, events, input[i..], ended)
      {
        assert input[i..][0] == input[i] && input[i..][1..] == input[i + 1..];
        events := events + [input[i]];
        if |events| >= expected {
          return Reached;
        }
        i := i + 1;
      }
      return if ended then Ended else TimedOut;
    }

    /** `__len__`. */
    function Len(): (n: nat)
      reads this
      ensures n == |EventNames()|
    {
      |events|
    }

    /** `event_names`: the `event` field of each collected event, or `None`. */
    function EventNames(): (names: seq<Value>)
      reads this
      ensures |names| == |events|
      ensures forall i :: 0 <= i < |events| ==> names[i] == EventName(events[i])
    {
      Names(events)
    }

    /** `assert_events`: passes exactly when `xs` lists the collected names in order. */
    predicate AssertEvents(xs: seq<Value>)
      reads this
      ensures AssertEvents(xs) <==> |xs| == |events| && forall i :: 0 <= i < |xs| ==> xs[i] == EventName(events[i])
    {
      xs == EventNames()
    }
  }
}
