/**
 * The welcome handler and the one process-wide slot holding the id of the
 * pinned welcome message. The platform client is not modelled: each call the
 * handler makes is recorded as an `Action`, and what the platform answers is
 * a `Replies` value chosen by the caller, so every outcome is covered.
 */
module PinnedWelcome {
  import opened Wrappers
  import opened PyStr
  import opened ChatLink
  import opened Welcome

  /** The parts of an incoming `new_chat_members` message the handler reads. */
  datatype Message = Message(chat: Chat, threadId: Option<int>, newMembers: seq<Member>)

  /** A call to the platform client, with the arguments the handler passes. */
  datatype Action =
    | SendMessage(chatId: int, text: string, keyboard: Keyboard, threadId: Option<int>,
                  disablePreview: bool, disableNotification: bool)
    | PinChatMessage(chatId: int, messageId: int, disableNotification: bool)
    | EditMessageText(chatId: int, messageId: int, text: string, keyboard: Keyboard,
                      disablePreview: bool)

  /**
   * What the platform answers during one event: the id of the sent message,
   * or `None` when `send_message` raises; whether the pin and the edit
   * succeed. The last two are only ever logged.
   */
  datatype Replies = Replies(sent: Option<int>, pinOk: bool, editOk: bool)

  /** The slot after one event, the calls it made, and whether an exception left the handler. */
  datatype Outcome = Outcome(pinned: Option<int>, actions: seq<Action>, raised: bool)

  /** `message_thread_id` is passed on only when it is truthy: present and non-zero. */
  function ThreadArgument(threadId: Option<int>): (r: Option<int>)
    ensures r.Some? <==> threadId.Some? && threadId.value != 0
    ensures r.Some? ==> r == threadId
  {
    if threadId.Some? && threadId.value != 0 then threadId else None
  }

  /** One welcome event, starting from the slot `pinned`. */
  function Step(pinned: Option<int>, msg: Message, replies: Replies): (r: Outcome)
    // once set, the slot keeps its id, and the event only edits that message
    ensures pinned.Some? ==>
              && r.pinned == pinned && !r.raised && |r.actions| == 1
              && r.actions[0].EditMessageText? && r.actions[0].messageId == pinned.value
    // with no pinned message, the event always begins with one send
    ensures pinned.None? ==>
              && 1 <= |r.actions| <= 2 && r.actions[0].SendMessage?
              && r.actions[0].threadId == ThreadArgument(msg.threadId)
              && r.actions[0].disableNotification
    // a successful send is pinned under the id it returned, which the slot keeps even if pinning fails
    ensures pinned.None? && replies.sent.Some? ==>
              && !r.raised && r.pinned == replies.sent && |r.actions| == 2
              && r.actions[1].PinChatMessage? && r.actions[1].messageId == replies.sent.value
              && r.actions[1].chatId == r.actions[0].chatId
    // a send that raises leaves the slot empty and the exception escapes
    ensures pinned.None? && replies.sent.None? ==> r.raised && r.pinned == None && |r.actions| == 1
    // every call targets the event's chat and carries the welcome text and keyboard
    ensures forall a :: a in r.actions ==> a.chatId == msg.chat.id
    ensures forall a :: a in r.actions && !a.PinChatMessage? ==>
              a.text == WelcomeText(msg.newMembers) && a.keyboard == WelcomeKeyboard()
  {
    var text := WelcomeText(msg.newMembers);
    var keyboard := WelcomeKeyboard();
    match pinned
    case None =>
      var send := SendMessage(msg.chat.id, text, keyboard, ThreadArgument(msg.threadId), true, true);
      (match replies.sent
       case None => Outcome(None, [send], true)
       case Some(messageId) => Outcome(Some(messageId), [send, PinChatMessage(msg.chat.id, messageId, true)], false))
    case Some(messageId) =>
      Outcome(pinned, [EditMessageText(msg.chat.id, messageId, text, keyboard, true)], false)
  }

  /** Whether a pin or an edit fails changes nothing the handler does afterwards. */
  lemma FailuresAreSwallowed(pinned: Option<int>, msg: Message, sent: Option<int>,
                             pinOk: bool, editOk: bool, pinOk': bool, editOk': bool)
    ensures Step(pinned, msg, Replies(sent, pinOk, editOk)) == Step(pinned, msg, Replies(sent, pinOk', editOk'))
  {
  }

  // The shape of all the calls made since the process started

  /** The pin at index `k` is the only one: sends before it, edits of `messageId` after it. */
  ghost predicate PinnedAt(trace: seq<Action>, k: int, messageId: int) {
    && 0 < k < |trace|
    && (forall i :: 0 <= i < k ==> trace[i].SendMessage?)
    && trace[k].PinChatMessage? && trace[k].messageId == messageId
    && trace[k].chatId == trace[k - 1].chatId
    && (forall i :: k < i < |trace| ==> trace[i].EditMessageText? && trace[i].messageId == messageId)
  }

  /**
   * With the slot empty, every call so far was a send; with an id in it, that
   * id was pinned right after a send to the same chat, and everything since
   * has been an edit of it. That those sends raised, and that the pinned id is
   * the one the send returned, is what `Step` states.
   */
  ghost predicate TraceShape(trace: seq<Action>, pinned: Option<int>) {
    match pinned
    case None => forall i :: 0 <= i < |trace| ==> trace[i].SendMessage?
    case Some(messageId) => exists k :: PinnedAt(trace, k, messageId)
  }

  lemma FirstPinKeepsShape(trace: seq<Action>, msg: Message, replies: Replies)
    requires TraceShape(trace, None)
    ensures TraceShape(trace + Step(None, msg, replies).actions, Step(None, msg, replies).pinned)
  {
    var r := Step(None, msg, replies);
    if replies.sent.Some? {
      assert PinnedAt(trace + r.actions, |trace| + 1, replies.sent.value);
    }
  }

  lemma EditKeepsShape(trace: seq<Action>, messageId: int, msg: Message, replies: Replies)
    requires TraceShape(trace, Some(messageId))
    ensures TraceShape(trace + Step(Some(messageId), msg, replies).actions, Step(Some(messageId), msg, replies).pinned)
  {
    var r := Step(Some(messageId), msg, replies);
    var k :| PinnedAt(trace, k, messageId);
    assert PinnedAt(trace + r.actions, k, messageId);
  }

  /** Every event keeps the shape. */
  lemma StepPreservesShape(trace: seq<Action>, pinned: Option<int>, msg: Message, replies: Replies)
    requires TraceShape(trace, pinned)
    ensures TraceShape(trace + Step(pinned, msg, replies).actions, Step(pinned, msg, replies).pinned)
  {
    match pinned
    case None => FirstPinKeepsShape(trace, msg, replies);
    case Some(messageId) => EditKeepsShape(trace, messageId, msg, replies);
  }

  /** A sequence of welcome events handled one after another. */
  datatype Event = Event(msg: Message, replies: Replies)
  datatype History = History(pinned: Option<int>, actions: seq<Action>)

  function Run(pinned: Option<int>, events: seq<Event>): History
    decreases |events|
  {
    if events == [] then History(pinned, [])
    else
      var first := Step(pinned, events[0].msg, events[0].replies);
      var rest := Run(first.pinned, events[1..]);
      History(rest.pinned, first.actions + rest.actions)
  }

  lemma ConcatAssoc<T>(a: seq<T>, b: seq<T>, c: seq<T>)
    ensures a + b + c == a + (b + c)
  {
  }

  /** Any run of events keeps the shape. */
  lemma {:induction false} RunPreservesShape(trace: seq<Action>, pinned: Option<int>, events: seq<Event>)
    requires TraceShape(trace, pinned)
    ensures TraceShape(trace + Run(pinned, events).actions, Run(pinned, events).pinned)
    decreases |events|
  {
    if events == [] {
      assert trace + [] == trace;
    } else {
      var first := Step(pinned, events[0].msg, events[0].replies);
      StepPreservesShape(trace, pinned, events[0].msg, events[0].replies);
      RunPreservesShape(trace + first.actions, first.pinned, events[1..]);
      var rest := Run(first.pinned, events[1..]);
      assert Run(pinned, events) == History(rest.pinned, first.actions + rest.actions);
      ConcatAssoc(trace, first.actions, rest.actions);
    }
  }

  /** Once the slot holds an id it never changes again, and every later call is an edit of that message. */
  lemma {:induction false} PinnedIdIsForever(messageId: int, events: seq<Event>)
    ensures Run(Some(messageId), events).pinned == Some(messageId)
    ensures forall a :: a in Run(Some(messageId), events).actions ==>
              a.EditMessageText? && a.messageId == messageId
    ensures |Run(Some(messageId), events).actions| == |events|
    decreases |events|
  {
    if events != [] {
      PinnedIdIsForever(messageId, events[1..]);
    }
  }

  /** Over any history that has the shape, there is one pin at most, and it is of the message in the slot. */
  lemma AtMostOnePin(trace: seq<Action>, pinned: Option<int>, i: int, j: int)
    requires TraceShape(trace, pinned)
    requires 0 <= i < |trace| && 0 <= j < |trace|
    requires trace[i].PinChatMessage? && trace[j].PinChatMessage?
    ensures i == j && pinned == Some(trace[i].messageId)
  {
    match pinned
    case None =>
    case Some(messageId) =>
      var k :| PinnedAt(trace, k, messageId);
  }

  /** The text and keyboard the handler builds before it talks to the platform. */
  method ComposeWelcome(msg: Message) returns (welcomeText: string, rows: Keyboard)
    ensures welcomeText == WelcomeText(msg.newMembers)
    ensures rows == WelcomeKeyboard()
  {
    var newNames := BuildMentions(msg.newMembers);
    var joinedText := Join(Separator, newNames);
    welcomeText := WelcomeOpening + joinedText + WelcomeClosing;
    // The link base is computed here, as in the handler, and not used afterwards.
    var base := ChatLinkBase(msg.chat);
    var markup := BuildMarkup();
    rows := markup.rows;
  }

  /** The running handler: the slot `PINNED_MSG_ID`, and the calls made so far. */
  class WelcomeBot {
    var pinned: Option<int>
    var trace: seq<Action>

    ghost predicate Valid()
      reads this
    {
      TraceShape(trace, pinned)
    }

    /** At start-up the slot is empty and no call has been made. */
    constructor ()
      ensures Valid() && pinned == None && trace == []
    {
      pinned := None;
      trace := [];
    }

    /** `welcome_new_member`: send and pin a new welcome, or edit the pinned one. */
    method WelcomeNewMember(msg: Message, replies: Replies) returns (raised: bool)
      requires Valid()
      modifies this
      ensures Valid()
      ensures pinned == Step(old(pinned), msg, replies).pinned
      ensures trace == old(trace) + Step(old(pinned), msg, replies).actions
      ensures raised == Step(old(pinned), msg, replies).raised
    {
      ghost var step := Step(pinned, msg, replies);
      StepPreservesShape(trace, pinned, msg, replies);
      var welcomeText, rows := ComposeWelcome(msg);
      var send := SendMessage(msg.chat.id, welcomeText, rows, ThreadArgument(msg.threadId), true, true);
      if pinned == None {
        trace := trace + [send];
        match replies.sent {
          case None =>
            // the exception from send_message is not caught
            raised := true;
          case Some(messageId) =>
            pinned := Some(messageId);
            // a failed pin is only logged
            trace := trace + [PinChatMessage(msg.chat.id, messageId, true)];
            raised := false;
            ConcatAssoc(old(trace), [send], [PinChatMessage(msg.chat.id, messageId, true)]);
        }
      } else {
        // a failed edit is only logged
        trace := trace + [EditMessageText(msg.chat.id, pinned.value, welcomeText, rows, true)];
        raised := false;
      }
      assert trace == old(trace) + step.actions && pinned == step.pinned;
    }
  }
}
