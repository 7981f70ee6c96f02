/** The Telegram-facing data the bot consumes and produces, and the client it
    talks through. The HTTP client is replaced by an append-only log of
    outgoing requests whose sends hand back message ids. */
module Telegram {
  import opened Wrappers
  import opened Py

  datatype Chat = Chat(id: int)

  datatype User = User(id: int)

  /** A tap on an inline-keyboard button; `data` is the button's callback data. */
  datatype CallbackQuery = CallbackQuery(sender: User, data: string)

  datatype Message = Message(chat: Chat, text: string)

  datatype ChatMember = ChatMember(status: string)

  /** A change of the bot's membership in a chat (blocked, unblocked). */
  datatype ChatMemberUpdated = ChatMemberUpdated(chat: Chat, newChatMember: ChatMember)

  /** An inbound update. At most one of the payloads is expected to be set.
      `myChatMember` is the membership change that `main.py` reads; the
      `Update` class of src/telegram_client.py does not declare it. */
  datatype Update = Update(
    updateId: int,
    message: Option<Message>,
    callbackQuery: Option<CallbackQuery>,
    myChatMember: Option<ChatMemberUpdated>)

  /** `Update.chat_id`: asserts that exactly one of `message` and
      `callback_query` is present, then takes the chat of the message or the
      user who tapped the button. */
  function ChatId(u: Update): (r: Result<int, Exception>)
    ensures r.Ok? <==> u.message.Some? != u.callbackQuery.Some?
    ensures r.Ok? && u.message.Some? ==> r.value == u.message.value.chat.id
    ensures r.Ok? && u.callbackQuery.Some? ==> r.value == u.callbackQuery.value.sender.id
    ensures r.Err? ==> r.error == AssertionError
  {
    if u.message.Some? == u.callbackQuery.Some? then Err(AssertionError)
    else if u.message.Some? then Ok(u.message.value.chat.id)
    else Ok(u.callbackQuery.value.sender.id)
  }

  function TextUpdate(updateId: int, chatId: int, text: string): Update {
    Update(updateId, Some(Message(Chat(chatId), text)), None, None)
  }

  function CallbackUpdate(updateId: int, userId: int, data: string): Update {
    Update(updateId, None, Some(CallbackQuery(User(userId), data)), None)
  }

  datatype InlineKeyboardButton = InlineKeyboardButton(text: string, callbackData: string)

  datatype InlineKeyboardMarkup = InlineKeyboardMarkup(inlineKeyboard: seq<seq<InlineKeyboardButton>>)

  datatype SendMessagePayload = SendMessagePayload(chatId: int, text: string, replyMarkup: Option<InlineKeyboardMarkup>)

  datatype MessageEdit = MessageEdit(chatId: int, messageId: int, text: string)

  /** One request the bot made to Telegram. */
  datatype Outgoing = Sent(payload: SendMessagePayload) | Edited(edit: MessageEdit)

  /** Where message ids come from: a client that always answers the same id
      (the test double answers 0), or one that numbers messages consecutively. */
  datatype IdSource = Fixed(id: int) | Counter(next: int)
  {
    function Current(): int {
      match this
      case Fixed(k) => k
      case Counter(n) => n
    }

    function Advance(): (s: IdSource)
      ensures Fixed? ==> s == this
      ensures Counter? ==> s.Counter? && s.next == next + 1
    {
      match this
      case Fixed(k) => this
      case Counter(n) => Counter(n + 1)
    }
  }

  /** The client: every request it was asked to make, in order. */
  datatype Transport = Transport(log: seq<Outgoing>, ids: IdSource)

  /** The result of a call with side effects on the client: either a value, or
      a raised exception; the requests made before the raise stay made. */
  datatype Outcome<+T> = Done(value: T, transport: Transport) | Raised(exception: Exception, transport: Transport)

  /** `send_message`: records the request and answers the id of the new message. */
  function SendMessage(t: Transport, payload: SendMessagePayload): (r: (Transport, int))
    ensures r.0.log == t.log + [Sent(payload)]
    ensures r.1 == t.ids.Current()
    ensures r.0.ids == t.ids.Advance()
  {
    (Transport(t.log + [Sent(payload)], t.ids.Advance()), t.ids.Current())
  }

  /** `edit_message_text`: records the edit; nothing is answered. */
  function EditMessageText(t: Transport, edit: MessageEdit): (r: Transport)
    ensures r.log == t.log + [Edited(edit)]
    ensures r.ids == t.ids
  {
    Transport(t.log + [Edited(edit)], t.ids)
  }

  /** `send_text`: a `send_message` of `SendMessagePayload(chat_id, text,
      reply_markup)`, whose message id it hands back unchanged. */
  function SendText(t: Transport, chatId: int, text: string, markup: Option<InlineKeyboardMarkup>): (r: (Transport, int))
    ensures r == SendMessage(t, SendMessagePayload(chatId, text, markup))
    ensures r.0.log == t.log + [Sent(SendMessagePayload(chatId, text, markup))]
    ensures r.1 == t.ids.Current()
  {
    SendMessage(t, SendMessagePayload(chatId, text, markup))
  }

  /** A consecutively numbering client never hands out the same id twice. */
  lemma CounterIdsAreFresh(t: Transport, p1: SendMessagePayload, p2: SendMessagePayload)
    requires t.ids.Counter?
    ensures SendMessage(t, p1).1 != SendMessage(SendMessage(t, p1).0, p2).1
  {
  }

  /** The errors the live client raises. */
  datatype TelegramException =
    | UnexpectedStatusCode(statusCode: int)
    | NetworkFailure
    | UnknownError
}
