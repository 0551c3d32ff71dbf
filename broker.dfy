/**
 * The event broker: its token table, the authorisation state machine, and
 * the per-connection websocket loop that turns a subscription into frames.
 */
module Broker {

  import opened Wrappers
  import opened Events
  import opened Tokens
  import opened Callbacks
  import opened Subscription

  const NotAuthorized := "not authorized"
  const TokenIsExpired := "token is expired"

  /** The JSON objects the websocket handler sends. */
  datatype Frame =
    | ErrorFrame(message: string)   // {'event': 'error', 'message': ...}
    | OpenFrame                     // {'event': '_open'}
    | TokenExpireFrame              // {'event': '_token_expire', 'message': 'token is expired'}
    | KeepAliveFrame                // {'event': '_keepalive'}
    | DataFrame(data: Event)        // a published mapping, sent unchanged
    | CloseFrame                    // {'event': '_close'}

  /** The mapping `websocket.send_json` receives for a frame. */
  function ToJson(f: Frame): (r: Event)
    ensures f.DataFrame? ==> r == f.data
    ensures !f.DataFrame? ==> "event" in r && r["event"].PyStr? && r["event"].s != ""
  {
    match f
    case ErrorFrame(message) => map["event" := PyStr("error"), "message" := PyStr(message)]
    case OpenFrame => map["event" := PyStr("_open")]
    case TokenExpireFrame => map["event" := PyStr("_token_expire"), "message" := PyStr(TokenIsExpired)]
    case KeepAliveFrame => map["event" := PyStr("_keepalive")]
    case DataFrame(data) => data
    case CloseFrame => map["event" := PyStr("_close")]
  }

  /** One subscription item, with the clock reading its expiry check sees. */
  datatype Arrival = Arrival(item: SubItem, now: Time)

  /** The payloads of the data items of a stream, in order. */
  function StreamData(s: seq<Arrival>): seq<Event>
  {
    if s == [] then []
    else (if s[0].item.Data? then [s[0].item.data] else []) + StreamData(s[1..])
  }

  /** The payloads of the data frames among `fs`, in order. */
  function DataEvents(fs: seq<Frame>): seq<Event>
  {
    if fs == [] then []
    else (if fs[0].DataFrame? then [fs[0].data] else []) + DataEvents(fs[1..])
  }

  /**
   * What stays fixed over one connection's loop: the token bound by the
   * authorisation check (`None` when authorisation is disabled and `_token`
   * was never bound), the namespace, the send callbacks and the expiry span.
   */
  datatype LoopConfig = LoopConfig(
    bound: Option<Token>,
    namespace: Option<string>,
    sendCallbacks: seq<Callback>,
    behave: Behaviour,
    expireSeconds: int)

  /** What the loop body does with one item. */
  datatype Step = Emit(frame: Frame) | Drop | Halt(last: seq<Frame>)

  /**
   * The loop body. Its checks come in a fixed order: token expiry, then
   * keepalive, then the namespace test, then the send callbacks. Any
   * exception inside the body is caught and ends the loop without a frame.
   */
  function StepOf(c: LoopConfig, a: Arrival): Step
  {
    match c.bound
    case None => Halt([])
    case Some(t) =>
      if IsExpired(t, a.now, c.expireSeconds) then Halt([TokenExpireFrame])
      else match a.item
        case KeepAlive => Emit(KeepAliveFrame)
        case Data(data) =>
          match Screen(c.namespace, data)
          case Skip => Drop
          case Raise => Halt([])
          case Accept =>
            if FirstFailure(c.sendCallbacks, WithData(data), c.behave).Raises? then Halt([])
            else Emit(DataFrame(data))
  }

  /**
   * Exactly one outcome per item, decided in the source's order: an unbound
   * or expired token stops the loop (with `_token_expire` only for expiry),
   * a keepalive is forwarded, a data item outside the namespace is dropped,
   * and a data item inside it is sent unchanged once every send callback
   * has returned; a raising callback or name test stops the loop silently.
   */
  lemma StepChecksInOrder(c: LoopConfig, a: Arrival)
    ensures c.bound.None? ==> StepOf(c, a) == Halt([])
    ensures c.bound.Some? && IsExpired(c.bound.value, a.now, c.expireSeconds) ==> StepOf(c, a) == Halt([TokenExpireFrame])
    ensures c.bound.Some? && !IsExpired(c.bound.value, a.now, c.expireSeconds) ==>
      && (a.item.KeepAlive? ==> StepOf(c, a) == Emit(KeepAliveFrame))
      && (a.item.Data? ==>
            && (StepOf(c, a) == Drop <==> Screen(c.namespace, a.item.data) == Skip)
            && (StepOf(c, a) == Emit(DataFrame(a.item.data)) <==>
                  Screen(c.namespace, a.item.data) == Accept &&
                  FirstFailure(c.sendCallbacks, WithData(a.item.data), c.behave).Returns?)
            && (StepOf(c, a).Halt? ==> StepOf(c, a).last == []))
  {
  }

  /** The frames the loop sends for `s`; `ended` says whether the subscription ended on its own after `s`. */
  function Deliver(c: LoopConfig, s: seq<Arrival>, ended: bool): seq<Frame>
  {
    if s == [] then (if ended then [CloseFrame] else [])
    else match StepOf(c, s[0])
      case Emit(f) => [f] + Deliver(c, s[1..], ended)
      case Drop => Deliver(c, s[1..], ended)
      case Halt(last) => last
  }

  /** The index of the item that ends the loop early, or `|s|` when none does. */
  function HaltIndex(c: LoopConfig, s: seq<Arrival>): (h: nat)
    ensures h <= |s|
    ensures forall i :: 0 <= i < h ==> !StepOf(c, s[i]).Halt?
    ensures h < |s| ==> StepOf(c, s[h]).Halt?
  {
    if s == [] then 0
    else if StepOf(c, s[0]).Halt? then 0
    else
      var h := 1 + HaltIndex(c, s[1..]);
      assert forall i :: 1 <= i < |s| ==> s[i] == s[1..][i - 1];
      h
  }

  lemma DataEventsAppend(xs: seq<Frame>, ys: seq<Frame>)
    ensures DataEvents(xs + ys) == DataEvents(xs) + DataEvents(ys)
  {
    if xs == [] {
      assert xs + ys == ys;
    } else {
      assert (xs + ys)[0] == xs[0];
      assert (xs + ys)[1..] == xs[1..] + ys;
      DataEventsAppend(xs[1..], ys);
    }
  }

  /**
   * The data frames sent are exactly the data items before the loop stops
   * that pass the namespace test, unchanged and in arrival order.
   */
  lemma {:induction false} DeliveredData(c: LoopConfig, s: seq<Arrival>, ended: bool)
    ensures DataEvents(Deliver(c, s, ended)) == Matching(c.namespace, StreamData(s[..HaltIndex(c, s)]))
  {
    if s == [] {
    } else if StepOf(c, s[0]).Halt? {
      assert s[..HaltIndex(c, s)] == [];
    } else {
      var a, rest := s[0], s[1..];
      assert s == [a] + rest;
      DeliveredData(c, rest, ended);
      var h := HaltIndex(c, rest);
      assert HaltIndex(c, s) == 1 + h;
      var pre := rest[..h];
      var x := if a.item.Data? then [a.item.data] else [];
      assert StreamData(s[..1 + h]) == x + StreamData(pre) by {
        assert s[..1 + h] == [a] + pre;
        StreamDataCons(a, pre);
      }
      MatchingAppend(c.namespace, x, StreamData(pre));
      DeliveredHead(c, a, rest, ended);
    }
  }

  /** One item's contribution to `DeliveredData`. */
  lemma DeliveredHead(c: LoopConfig, a: Arrival, rest: seq<Arrival>, ended: bool)
    requires !StepOf(c, a).Halt?
    ensures DataEvents(Deliver(c, [a] + rest, ended)) ==
      Matching(c.namespace, if a.item.Data? then [a.item.data] else []) + DataEvents(Deliver(c, rest, ended))
  {
    var s := [a] + rest;
    assert s[0] == a && s[1..] == rest;
    var x := if a.item.Data? then [a.item.data] else [];
    match StepOf(c, a)
    case Emit(f) =>
      DataEventsAppend([f], Deliver(c, rest, ended));
      assert x != [] ==> Screen(c.namespace, a.item.data) == Accept;
      assert Matching(c.namespace, x) == DataEvents([f]);
    case Drop =>
      assert Matching(c.namespace, x) == [];
  }

  lemma StreamDataCons(a: Arrival, rest: seq<Arrival>)
    ensures StreamData([a] + rest) == (if a.item.Data? then [a.item.data] else []) + StreamData(rest)
  {
    assert ([a] + rest)[0] == a && ([a] + rest)[1..] == rest;
  }

  /**
   * The final `_close` is sent exactly when the subscription ended on its own
   * and no item stopped the loop early, and then it is the last frame.
   */
  lemma {:induction false} CloseOnlyOnNaturalEnd(c: LoopConfig, s: seq<Arrival>, ended: bool)
    ensures CloseFrame in Deliver(c, s, ended) <==> ended && HaltIndex(c, s) == |s|
    ensures CloseFrame in Deliver(c, s, ended) ==>
      Deliver(c, s, ended)[|Deliver(c, s, ended)| - 1] == CloseFrame &&
      CloseFrame !in Deliver(c, s, ended)[..|Deliver(c, s, ended)| - 1]
  {
    if s != [] {
      var step := StepOf(c, s[0]);
      if step.Halt? {
        assert step.last == [] || step.last == [TokenExpireFrame];
      } else {
        CloseOnlyOnNaturalEnd(c, s[1..], ended);
        if step.Emit? {
          var rest := Deliver(c, s[1..], ended);
          assert step.frame != CloseFrame;
          assert Deliver(c, s, ended) == [step.frame] + rest;
          if CloseFrame in rest {
            assert ([step.frame] + rest)[..|rest|] == [step.frame] + rest[..|rest| - 1];
          }
        }
      }
    }
  }

  /**
   * `_token_expire` is sent only when the bound token has expired by the time
   * of the item that stops the loop, and it is then the last frame.
   */
  lemma {:induction false} TokenExpireIsTerminal(c: LoopConfig, s: seq<Arrival>, ended: bool)
    requires TokenExpireFrame in Deliver(c, s, ended)
    ensures HaltIndex(c, s) < |s|
    ensures c.bound.Some? && IsExpired(c.bound.value, s[HaltIndex(c, s)].now, c.expireSeconds)
    ensures Deliver(c, s, ended)[|Deliver(c, s, ended)| - 1] == TokenExpireFrame
  {
    assert s != [];
    var step := StepOf(c, s[0]);
    if !step.Halt? {
      var rest := s[1..];
      TokenExpireIsTerminal(c, rest, ended);
      assert s[1 + HaltIndex(c, rest)] == rest[HaltIndex(c, rest)];
    }
  }

  /**
   * Conversely, when the item that stops the loop finds the bound token
   * expired, `_token_expire` is sent and is the last frame.
   */
  lemma {:induction false} ExpiryAtStopSendsTokenExpire(c: LoopConfig, s: seq<Arrival>, ended: bool)
    requires HaltIndex(c, s) < |s|
    requires c.bound.Some? && IsExpired(c.bound.value, s[HaltIndex(c, s)].now, c.expireSeconds)
    ensures 0 < |Deliver(c, s, ended)| && Deliver(c, s, ended)[|Deliver(c, s, ended)| - 1] == TokenExpireFrame
  {
    if !StepOf(c, s[0]).Halt? {
      var rest := s[1..];
      assert s[HaltIndex(c, s)] == rest[HaltIndex(c, rest)];
      ExpiryAtStopSendsTokenExpire(c, rest, ended);
    }
  }

  /**
   * Fed by `subscribe`, the loop sends `_close` exactly when the queue
   * delivered the sentinel and no item stopped the loop; the sentinel then
   * came right after the items the loop consumed.
   */
  lemma SubscriptionCloses(c: LoopConfig, outcomes: seq<QueueOutcome>, s: seq<Arrival>)
    requires |s| == |Items(outcomes)|
    requires forall i :: 0 <= i < |s| ==> s[i].item == Items(outcomes)[i]
    ensures CloseFrame in Deliver(c, s, Sentinel in outcomes) <==> Sentinel in outcomes && HaltIndex(c, s) == |s|
    ensures CloseFrame in Deliver(c, s, Sentinel in outcomes) ==>
      |s| < |outcomes| && outcomes[|s|] == Sentinel && Sentinel !in outcomes[..|s|]
  {
    CloseOnlyOnNaturalEnd(c, s, Sentinel in outcomes);
    ItemsMeaning(outcomes);
  }

  /** The loop itself never sends `_open` or an error frame. */
  lemma {:induction false} LoopFramesAreStreamFrames(c: LoopConfig, s: seq<Arrival>, ended: bool)
    ensures OpenFrame !in Deliver(c, s, ended)
    ensures forall f :: f in Deliver(c, s, ended) ==> !f.ErrorFrame?
  {
    if s != [] && !StepOf(c, s[0]).Halt? {
      LoopFramesAreStreamFrames(c, s[1..], ended);
    }
  }

  /** The outcome of `verify_auth`: the session's token, or the exception raised. */
  datatype Verified = Verified(token: Token) | Refused(error: Raised)

  class EventBroker {
    /** Seconds of idleness before a keepalive; only the timing of `subscribe` uses it. */
    const keepalive: int
    const authEnabled: bool
    const tokenExpireSeconds: int
    var authCallbacks: seq<Callback>
    var verifyCallbacks: seq<Callback>
    var sendCallbacks: seq<Callback>
    /** `_tokens`: minted tokens keyed by the text of their uuid. */
    var tokens: map<string, IssuedToken>
    /** The `quart_events_token` entry of the current client's session. */
    var session: Option<IssuedToken>

    constructor (keepalive: int, auth: bool, tokenExpireSeconds: int)
      ensures this.keepalive == keepalive && authEnabled == auth && this.tokenExpireSeconds == tokenExpireSeconds
      ensures authCallbacks == [] && verifyCallbacks == [] && sendCallbacks == []
      ensures tokens == map[] && session == None
    {
      this.keepalive := keepalive;
      authEnabled := auth;
      this.tokenExpireSeconds := tokenExpireSeconds;
      authCallbacks, verifyCallbacks, sendCallbacks := [], [], [];
      tokens := map[];
      session := None;
    }

    method Auth(cb: Callback)
      modifies this`authCallbacks
      ensures authCallbacks == old(authCallbacks) + [cb]
    {
      authCallbacks := authCallbacks + [cb];
    }

    method Verify(cb: Callback)
      modifies this`verifyCallbacks
      ensures verifyCallbacks == old(verifyCallbacks) + [cb]
    {
      verifyCallbacks := verifyCallbacks + [cb];
    }

    method Send(cb: Callback)
      modifies this`sendCallbacks
      ensures sendCallbacks == old(sendCallbacks) + [cb]
    {
      sendCallbacks := sendCallbacks + [cb];
    }

    /** `_get_token_from_session`: the stored token, or `NullToken` when there is none. */
    function SessionToken(): Token
      reads this
    {
      match session
      case Some(t) => t
      case None => NullToken
    }

    /**
     * `clear_expired_tokens`: walk a snapshot of the keys and delete every
     * entry whose token has expired.
     */
    method ClearExpiredTokens(now: Time)
      modifies this`tokens
      ensures tokens == LiveTokens(old(tokens), now, tokenExpireSeconds)
    {
      var pending := tokens.Keys;
      while pending != {}
        invariant pending <= old(tokens).Keys
        invariant forall k :: k in tokens <==>
          k in old(tokens) && (k in pending || !IsExpired(old(tokens)[k], now, tokenExpireSeconds))
        invariant forall k :: k in tokens ==> tokens[k] == old(tokens)[k]
        decreases pending
      {
        var key :| key in pending;
        if IsExpired(tokens[key], now, tokenExpireSeconds) {
          tokens := tokens - {key};
        }
        pending := pending - {key};
      }
      assert tokens.Keys == LiveTokens(old(tokens), now, tokenExpireSeconds).Keys;
    }

    /**
     * `authorize_websocket`: sweep the table, run the auth callbacks, then keep
     * a live session token or mint `newId` at `now` into both the session and
     * the table. If a callback raises, the session entry is removed and the
     * exception is returned as the outcome.
     */
    method AuthorizeWebsocket(now: Time, newId: Uuid, behave: Behaviour) returns (e: Effect)
      modifies this`tokens, this`session
      ensures e == FirstFailure(authCallbacks, NoArgs, behave)
      ensures e.Raises? ==> session == None && tokens == LiveTokens(old(tokens), now, tokenExpireSeconds)
      ensures e.Returns? && !IsExpired(old(SessionToken()), now, tokenExpireSeconds) ==>
        session == old(session) && tokens == LiveTokens(old(tokens), now, tokenExpireSeconds)
      ensures e.Returns? && IsExpired(old(SessionToken()), now, tokenExpireSeconds) ==>
        && session == Some(Token(newId, now))
        && tokens == LiveTokens(old(tokens), now, tokenExpireSeconds)[Str(newId) := Token(newId, now)]
      ensures e.Returns? && tokenExpireSeconds >= 0 ==> VerifyAuthToken(now).Verified?
    {
      ClearExpiredTokens(now);
      var ran, effect := ExecuteCallbacks(authCallbacks, NoArgs, behave);
      if effect.Raises? {
        session := None;
        return effect;
      }
      // The source also tests `_token is type(NullToken)`, which compares the
      // token with the class `type` and never holds.
      if IsExpired(SessionToken(), now, tokenExpireSeconds) {
        var t: IssuedToken := Token(newId, now);
        session := Some(t);
        tokens := tokens[Str(newId) := t];
      }
      return Returns;
    }

    /**
     * `verify_auth_token`: only the session token's date is consulted. The
     * source raises `EventBrokerAuthError` with one argument where two are
     * required, so what actually propagates is a `TypeError`.
     */
    function VerifyAuthToken(now: Time): (r: Verified)
      reads this
      ensures r.Verified? <==> !IsExpired(SessionToken(), now, tokenExpireSeconds)
      ensures r.Verified? ==> r.token == SessionToken() && r.token.Token?
      ensures r.Refused? ==> r.error == OtherError
    {
      var t := SessionToken();
      if IsExpired(t, now, tokenExpireSeconds) then Refused(OtherError) else Verified(t)
    }

    /** `verify_auth`: the token check, then the verify callbacks in order. */
    function VerifyAuth(now: Time, behave: Behaviour): (r: Verified)
      reads this
      ensures r.Verified? <==>
        !IsExpired(SessionToken(), now, tokenExpireSeconds) &&
        forall i :: 0 <= i < |verifyCallbacks| ==> behave(verifyCallbacks[i], NoArgs).Returns?
      ensures r.Verified? ==> r.token == SessionToken()
      ensures IsExpired(SessionToken(), now, tokenExpireSeconds) ==> r == Refused(OtherError)
      ensures !IsExpired(SessionToken(), now, tokenExpireSeconds) && r.Refused? ==>
        FirstFailure(verifyCallbacks, NoArgs, behave) == Raises(r.error)
    {
      match VerifyAuthToken(now)
      case Refused(error) => Refused(error)
      case Verified(t) =>
        match FirstFailure(verifyCallbacks, NoArgs, behave)
        case Raises(error) => Refused(error)
        case Returns => Verified(t)
    }

    /** The frames the `ws` handler sends over one connection. */
    function WsFrames(now: Time, namespace: Option<string>, behave: Behaviour, stream: seq<Arrival>, ended: bool): seq<Frame>
      reads this
    {
      if authEnabled then
        match VerifyAuth(now, behave)
        case Refused(AuthError(message)) => [ErrorFrame(message)]
        case Refused(OtherError) => [ErrorFrame(NotAuthorized)]
        case Verified(t) =>
          [OpenFrame] + Deliver(LoopConfig(Some(t), namespace, sendCallbacks, behave, tokenExpireSeconds), stream, ended)
      else
        [OpenFrame] + Deliver(LoopConfig(None, namespace, sendCallbacks, behave, tokenExpireSeconds), stream, ended)
    }

    /**
     * The `ws` handler: check authorisation, send `_open`, then one step of
     * the loop per subscription item, and `_close` if the subscription ends
     * on its own.
     */
    method Ws(now: Time, namespace: Option<string>, behave: Behaviour, stream: seq<Arrival>, ended: bool) returns (frames: seq<Frame>)
      ensures frames == WsFrames(now, namespace, behave, stream, ended)
      ensures authEnabled && VerifyAuth(now, behave).Refused? ==> |frames| == 1 && frames[0].ErrorFrame?
      ensures !(authEnabled && VerifyAuth(now, behave).Refused?) ==> 0 < |frames| && frames[0] == OpenFrame
    {
      var bound: Option<Token> := None;
      if authEnabled {
        var v := VerifyAuth(now, behave);
        if v.Refused? {
          var message := if v.error.AuthError? then v.error.message else NotAuthorized;
          return [ErrorFrame(message)];
        }
        bound := Some(v.token);
      }
      var loop := Loop(bound, namespace, behave, stream, ended);
      frames := [OpenFrame] + loop;
    }

    /**
     * The `async for` loop of `ws` over the subscription: one pass of the
     * body per item until one stops the loop, then `_close` if the
     * subscription ended on its own.
     */
    method Loop(bound: Option<Token>, namespace: Option<string>, behave: Behaviour, stream: seq<Arrival>, ended: bool)
      returns (frames: seq<Frame>)
      ensures frames == Deliver(LoopConfig(bound, namespace, sendCallbacks, behave, tokenExpireSeconds), stream, ended)
    {
      ghost var c := LoopConfig(bound, namespace, sendCallbacks, behave, tokenExpireSeconds);
      frames := [];
      var i := 0;
      while i < |stream|
        invariant 0 <= i <= |stream|
        invariant frames + Deliver(c, stream[i..], ended) == Deliver(c, stream, ended)
      {
        assert stream[i..][0] == stream[i] && stream[i..][1..] == stream[i + 1..];
        var step, _ := LoopBody(bound, namespace, behave, stream[i]);
        match step {
          case Emit(f) =>
            frames := frames + [f];
          case Drop =>
          case Halt(last) =>
            frames := frames + last;
            return;
        }
        i := i + 1;
      }
      if ended {
        frames := frames + [CloseFrame];
      }
    }

    /**
     * One pass of the `ws` loop body over an item. `bound` is the token
     * bound by the authorisation check, `None` when `_token` was never bound.
     */
    method LoopBody(bound: Option<Token>, namespace: Option<string>, behave: Behaviour, a: Arrival)
      returns (step: Step, called: seq<Callback>)
      ensures step == StepOf(LoopConfig(bound, namespace, sendCallbacks, behave, tokenExpireSeconds), a)
      ensures called <= sendCallbacks
      ensures called != [] ==>
        && bound.Some? && !IsExpired(bound.value, a.now, tokenExpireSeconds)
        && a.item.Data? && Screen(namespace, a.item.data) == Accept
      ensures step.Emit? && step.frame.DataFrame? ==> called == sendCallbacks
    {
      called := [];
      if bound.None? {
        // evaluating the unbound `_token` raises, and the handler ends the loop
        return Halt([]), called;
      }
      if IsExpired(bound.value, a.now, tokenExpireSeconds) {
        return Halt([TokenExpireFrame]), called;
      }
      match a.item {
        case KeepAlive =>
          return Emit(KeepAliveFrame), called;
        case Data(data) =>
          var verdict := Screen(namespace, data);
          if verdict == Skip {
            return Drop, called;
          } else if verdict == Raise {
            return Halt([]), called;
          }
          var effect;
          called, effect := ExecuteCallbacks(sendCallbacks, WithData(data), behave);
          if effect.Raises? {
            return Halt([]), called;
          }
          return Emit(DataFrame(data)), called;
      }
    }

    /**
     * An expired or missing session token is refused before any verify
     * callback runs, with the generic message rather than "token is expired".
     */
    lemma ExpiredSessionIsRefused(now: Time, namespace: Option<string>, behave: Behaviour, stream: seq<Arrival>, ended: bool)
      requires authEnabled && IsExpired(SessionToken(), now, tokenExpireSeconds)
      ensures WsFrames(now, namespace, behave, stream, ended) == [ErrorFrame(NotAuthorized)]
      ensures ToJson(WsFrames(now, namespace, behave, stream, ended)[0]) ==
        map["event" := PyStr("error"), "message" := PyStr("not authorized")]
      ensures forall other: Behaviour :: VerifyAuth(now, other) == VerifyAuth(now, behave)
    {
    }

    /**
     * With a live session token, an `EventBrokerAuthError` raised by a verify
     * callback reaches the client as its own message, alone.
     */
    lemma VerifyCallbackErrorIsReported(now: Time, namespace: Option<string>, behave: Behaviour, stream: seq<Arrival>, ended: bool, m: string)
      requires authEnabled && !IsExpired(SessionToken(), now, tokenExpireSeconds)
      requires FirstFailure(verifyCallbacks, NoArgs, behave) == Raises(AuthError(m))
      ensures WsFrames(now, namespace, behave, stream, ended) == [ErrorFrame(m)]
      ensures ToJson(WsFrames(now, namespace, behave, stream, ended)[0]) ==
        map["event" := PyStr("error"), "message" := PyStr(m)]
    {
    }

    /**
     * With authorisation disabled, `_token` is unbound, so the first item of
     * the subscription ends the loop; only an empty, ended subscription
     * reaches `_close`.
     */
    lemma AuthDisabledStopsAtFirstItem(now: Time, namespace: Option<string>, behave: Behaviour, stream: seq<Arrival>, ended: bool)
      requires !authEnabled
      ensures WsFrames(now, namespace, behave, stream, ended) ==
        [OpenFrame] + (if stream == [] && ended then [CloseFrame] else [])
    {
    }

    /**
     * Shape of every conversation: either a single error frame, or `_open`
     * first and never again, with `_close` only last and only on natural end.
     */
    lemma {:induction false} WsFraming(now: Time, namespace: Option<string>, behave: Behaviour, stream: seq<Arrival>, ended: bool)
      ensures var fs := WsFrames(now, namespace, behave, stream, ended);
        && 0 < |fs|
        && (fs[0].ErrorFrame? ==> |fs| == 1)
        && (!fs[0].ErrorFrame? ==> fs[0] == OpenFrame && OpenFrame !in fs[1..] && forall f :: f in fs[1..] ==> !f.ErrorFrame?)
        && (CloseFrame in fs ==> ended && fs[|fs| - 1] == CloseFrame)
    {
      var fs := WsFrames(now, namespace, behave, stream, ended);
      if !(authEnabled && VerifyAuth(now, behave).Refused?) {
        var bound := if authEnabled then Some(VerifyAuth(now, behave).token) else None;
        var c := LoopConfig(bound, namespace, sendCallbacks, behave, tokenExpireSeconds);
        var d := Deliver(c, stream, ended);
        assert fs == [OpenFrame] + d;
        assert fs[1..] == d;
        LoopFramesAreStreamFrames(c, stream, ended);
        CloseOnlyOnNaturalEnd(c, stream, ended);
      }
    }
  }
}
