/** `format.py`: the inline keyboard attached to every question. */
module Format {
  import opened Wrappers
  import opened Utils
  import opened Telegram
  import opened Storage

  /** `make_keyboard`: a single row with one button per answer, labelled with
      the answer and carrying its 1-based position as callback data. */
  function MakeKeyboard(q: Question): (k: InlineKeyboardMarkup)
    ensures |k.inlineKeyboard| == 1
    ensures |k.inlineKeyboard[0]| == |q.answers|
    ensures forall i :: 0 <= i < |q.answers| ==> k.inlineKeyboard[0][i].text == q.answers[i]
    ensures forall i :: 0 <= i < |q.answers| ==> ParseInt(k.inlineKeyboard[0][i].callbackData) == Some(i + 1)
  {
    ButtonDataParses(q);
    InlineKeyboardMarkup([Buttons(q)])
  }

  /** The buttons of the keyboard's only row, in answer order. */
  function Buttons(q: Question): (bs: seq<InlineKeyboardButton>)
    ensures |bs| == |q.answers|
    ensures forall i :: 0 <= i < |q.answers| ==> bs[i] == InlineKeyboardButton(q.answers[i], ShowInt(i + 1))
  {
    seq(|q.answers|, i requires 0 <= i < |q.answers| => InlineKeyboardButton(q.answers[i], ShowInt(i + 1)))
  }

  lemma ButtonDataParses(q: Question)
    ensures forall i :: 0 <= i < |q.answers| ==> ParseInt(Buttons(q)[i].callbackData) == Some(i + 1)
  {
    forall i | 0 <= i < |q.answers|
      ensures ParseInt(Buttons(q)[i].callbackData) == Some(i + 1)
    {
      ParseShowInt(i + 1);
    }
  }

  /** The callback data of button `i` is exactly the decimal text of `i + 1`. */
  lemma KeyboardDataIsOneBased(q: Question, i: int)
    requires 0 <= i < |q.answers|
    ensures MakeKeyboard(q).inlineKeyboard[0][i].callbackData == ShowInt(i + 1)
  {
  }
}
