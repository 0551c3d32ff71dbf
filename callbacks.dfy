/**
 * User callbacks (auth, verify, send). Their code is not part of the model:
 * a callback is known by name, and a behaviour says, for each callback and
 * argument, whether it returns or which exception it raises.
 */
module Callbacks {

  import opened Events

  datatype Callback = Callback(name: string)

  datatype Args = NoArgs | WithData(data: Event)

  /**
   * An exception a callback raises: an `EventBrokerAuthError` with its
   * message, or any other `Exception` subclass. Exceptions outside
   * `Exception`, which no handler here catches, are not modelled.
   */
  datatype Raised = AuthError(message: string) | OtherError

  datatype Effect = Returns | Raises(error: Raised)

  type Behaviour = (Callback, Args) -> Effect

  /** What running `cbs` in order amounts to: the first exception raised, if any. */
  function FirstFailure(cbs: seq<Callback>, args: Args, behave: Behaviour): (e: Effect)
    ensures e.Returns? <==> forall i :: 0 <= i < |cbs| ==> behave(cbs[i], args).Returns?
    ensures e.Raises? ==>
      exists i :: 0 <= i < |cbs| && behave(cbs[i], args) == e &&
        forall j :: 0 <= j < i ==> behave(cbs[j], args).Returns?
  {
    if cbs == [] then Returns
    else if behave(cbs[0], args).Raises? then behave(cbs[0], args)
    else
      var rest := FirstFailure(cbs[1..], args, behave);
      assert forall i :: 1 <= i < |cbs| ==> cbs[i] == cbs[1..][i - 1];
      rest
  }

  /** The first callback that raises decides the outcome. */
  lemma {:induction false} FirstFailureAt(cbs: seq<Callback>, args: Args, behave: Behaviour, i: nat)
    requires i < |cbs| && behave(cbs[i], args).Raises?
    requires forall j :: 0 <= j < i ==> behave(cbs[j], args).Returns?
    ensures FirstFailure(cbs, args, behave) == behave(cbs[i], args)
  {
    if i > 0 {
      assert behave(cbs[0], args).Returns?;
      assert forall j :: 0 <= j < i - 1 ==> cbs[1..][j] == cbs[j + 1];
      FirstFailureAt(cbs[1..], args, behave, i - 1);
    }
  }

  /**
   * `_execute_callbacks`: call each callback in list order, stopping at the
   * first that raises. `ran` lists the callbacks that were called.
   */
  method ExecuteCallbacks(cbs: seq<Callback>, args: Args, behave: Behaviour) returns (ran: seq<Callback>, e: Effect)
    ensures e == FirstFailure(cbs, args, behave)
    ensures ran <= cbs
    ensures e.Returns? ==> ran == cbs
    ensures e.Raises? ==> 0 < |ran| && behave(ran[|ran| - 1], args) == e
    ensures forall j :: 0 <= j < |ran| - 1 ==> behave(ran[j], args).Returns?
  {
    ran, e := [], Returns;
    var i := 0;
    while i < |cbs|
      invariant 0 <= i <= |cbs|
      invariant ran == cbs[..i]
      invariant forall j :: 0 <= j < i ==> behave(cbs[j], args).Returns?
    {
      ran := ran + [cbs[i]];
      var outcome := behave(cbs[i], args);
      if outcome.Raises? {
        FirstFailureAt(cbs, args, behave, i);
        e := outcome;
        return;
      }
      i := i + 1;
    }
  }
}
