/** `chat_handler.py`: the per-chat driver of the state machine. The reading
    of callback data is a parameter: `States.CallbackIndexAsWritten` gives the
    source as written, `States.CallbackIndex` the corrected model. */
module Handler {
  import opened Wrappers
  import opened Py
  import opened Telegram
  import opened States

  datatype ChatHandler = ChatHandler(state: State, chatId: int)

  /** `ChatHandler.__eq__`: same chat and equal states. */
  predicate HandlerEquals(a: ChatHandler, b: ChatHandler) {
    a.chatId == b.chatId && StateEquals(a.state, b.state)
  }

  /** The source's equality on handlers is exactly equality of the values. */
  lemma HandlerEqualsIsEquality(a: ChatHandler, b: ChatHandler)
    ensures HandlerEquals(a, b) <==> a == b
  {
    StateEqualsIsEquality(a.state, b.state);
  }

  /** `ChatHandler.create`: enters the initial state once, then wraps it. */
  function Create(s: State, chatId: int, env: Env, t: Transport): (r: Outcome<ChatHandler>)
    ensures r.Done? <==> Enter(s, chatId, env, t).Done?
    ensures r.Done? ==> r.value == ChatHandler(Enter(s, chatId, env, t).value, chatId)
    ensures r.transport == Enter(s, chatId, env, t).transport
    ensures r.Raised? ==> r.exception == Enter(s, chatId, env, t).exception
    ensures r.Done? ==> r.value.state.entered && r.value.chatId == chatId
  {
    match Enter(s, chatId, env, t)
    case Raised(e, t1) => Raised(e, t1)
    case Done(s1, t1) => Done(ChatHandler(s1, chatId), t1)
  }

  /** `ChatHandler.process` with the given reading of callback data: runs the
      state's `process`; when the returned state differs from the state
      object as it now is, enters the returned state; either way the returned
      state becomes the handler's state. */
  function Process(callbackIndex: string -> Option<int>, h: ChatHandler, u: Update, env: Env, t: Transport): (r: Outcome<ChatHandler>)
    ensures r.Done? ==> r.value.chatId == h.chatId && r.value.state.entered
    ensures ProcessWith(callbackIndex, h.state, u, env, t).Raised? ==>
      var step := ProcessWith(callbackIndex, h.state, u, env, t);
      r == Raised(step.exception, step.transport)
    ensures ProcessWith(callbackIndex, h.state, u, env, t).Done? ==>
      var step := ProcessWith(callbackIndex, h.state, u, env, t);
      && (step.value.next == step.value.current ==>
            r == Done(ChatHandler(step.value.next, h.chatId), step.transport))
      && (step.value.next != step.value.current ==>
            !step.value.next.entered && r == Create(step.value.next, h.chatId, env, step.transport))
  {
    match ProcessWith(callbackIndex, h.state, u, env, t)
    case Raised(e, t1) => Raised(e, t1)
    case Done(step, t1) =>
      if step.next != step.current then
        match Enter(step.next, h.chatId, env, t1)
        case Raised(e, t2) => Raised(e, t2)
        case Done(s2, t2) => Done(ChatHandler(s2, h.chatId), t2)
      else
        Done(ChatHandler(step.next, h.chatId), t1)
  }

  /** Several updates in a row, stopping at the first exception. The chat
      never changes, and after any update the state has been entered. */
  function ProcessAll(callbackIndex: string -> Option<int>, h: ChatHandler, us: seq<Update>, env: Env, t: Transport): (r: Outcome<ChatHandler>)
    ensures |us| == 0 ==> r == Done(h, t)
    ensures r.Done? ==> r.value.chatId == h.chatId
    ensures r.Done? && |us| > 0 ==> r.value.state.entered
    decreases |us|
  {
    if |us| == 0 then Done(h, t)
    else match Process(callbackIndex, h, us[0], env, t)
      case Raised(e, t1) => Raised(e, t1)
      case Done(h1, t1) => ProcessAll(callbackIndex, h1, us[1..], env, t1)
  }
}
