/**
 * `subscribe`: one subscriber's view of the broadcast queue, with a
 * keepalive marker in place of every idle timeout.
 */
module Subscription {

  import opened Events

  /** What one wait on the subscriber's queue produced. */
  datatype QueueOutcome =
    | TimedOut            // `asyncio.wait_for` gave up after `keepalive` seconds
    | Received(data: Event)
    | Sentinel            // the `StopAsyncIteration` marker closing the queue

  /** What the generator yields. */
  datatype SubItem = KeepAlive | Data(data: Event)

  /**
   * The items yielded for a run of queue outcomes: a keepalive per timeout
   * and each received value unchanged, up to the first sentinel.
   */
  function Items(outcomes: seq<QueueOutcome>): seq<SubItem>
  {
    if outcomes == [] || outcomes[0] == Sentinel then []
    else [if outcomes[0] == TimedOut then KeepAlive else Data(outcomes[0].data)] + Items(outcomes[1..])
  }

  /**
   * Item by item, `Items` maps a timeout to a keepalive and a received value
   * to itself, and stops exactly at the first sentinel.
   */
  lemma {:induction false} ItemsMeaning(outcomes: seq<QueueOutcome>)
    ensures Sentinel in outcomes ==> |Items(outcomes)| < |outcomes| && outcomes[|Items(outcomes)|] == Sentinel
    ensures Sentinel !in outcomes ==> |Items(outcomes)| == |outcomes|
    ensures forall i :: 0 <= i < |Items(outcomes)| ==> outcomes[i] != Sentinel
    ensures forall i :: 0 <= i < |Items(outcomes)| ==>
      Items(outcomes)[i] == if outcomes[i] == TimedOut then KeepAlive else Data(outcomes[i].data)
  {
    if outcomes != [] && outcomes[0] != Sentinel {
      ItemsMeaning(outcomes[1..]);
      assert forall i :: 1 <= i < |outcomes| ==> outcomes[i] == outcomes[1..][i - 1];
      assert Sentinel in outcomes ==> Sentinel in outcomes[1..];
    }
  }

  /** One step of `Items`: the first outcome decides the first item. */
  lemma ItemsStep(outcomes: seq<QueueOutcome>)
    requires outcomes != []
    ensures outcomes[0] == Sentinel ==> Items(outcomes) == []
    ensures outcomes[0] == TimedOut ==> Items(outcomes) == [KeepAlive] + Items(outcomes[1..])
    ensures outcomes[0].Received? ==> Items(outcomes) == [Data(outcomes[0].data)] + Items(outcomes[1..])
  {
  }

  /**
   * The items yielded for a finite run of queue outcomes, and whether the
   * generator ended on its own (`ended`); when the outcomes run out without
   * the sentinel, the generator is still waiting.
   */
  method Subscribe(outcomes: seq<QueueOutcome>) returns (items: seq<SubItem>, ended: bool)
    ensures items == Items(outcomes)
    ensures ended <==> Sentinel in outcomes
  {
    items, ended := [], false;
    var i := 0;
    while i < |outcomes|
      invariant 0 <= i <= |outcomes|
      invariant Sentinel !in outcomes[..i]
      invariant Items(outcomes) == items + Items(outcomes[i..])
    {
      assert outcomes[i..][0] == outcomes[i] && outcomes[i..][1..] == outcomes[i + 1..];
      ItemsStep(outcomes[i..]);
      match outcomes[i] {
        case TimedOut =>
          items := items + [KeepAlive];
        case Sentinel =>
          ended := true;
          return;
        case Received(data) =>
          items := items + [Data(data)];
      }
      assert outcomes[..i + 1] == outcomes[..i] + [outcomes[i]];
      i := i + 1;
    }
    assert outcomes[..i] == outcomes;
  }
}
