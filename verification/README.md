# Golden Fork welcome bot: a Dafny model

This project models the core of `welcome_app.py`, a Telegram bot that welcomes
new members of a group. The bot posts one welcome message with HTML mentions
and an inline keyboard. It pins the first welcome, then edits that pinned
message on every later join. Requests reach it through a webhook. The model
covers four parts:

- **Chat-link resolver** (`chatlink.dfy`). It gives the `t.me/c` internal id
  of a chat (`internal_chat_id`) and the chat's base link (`chat_link_base`).
- **Welcome-message builder** (`welcome.dfy`). It builds one
  `<a href="tg://user?id=…">` mention per new member, joins them with `", "`
  inside the fixed template, and builds the fixed four-row keyboard. A parser
  for the finished text is the partner of the builder. Reading a message back
  gives exactly one (id, label) pair per member, in input order. Unescaping a
  label gives back the member's display name.
- **Pinned-message state machine** (`pinned.dfy`). The class `WelcomeBot`
  holds the slot `PINNED_MSG_ID` as `pinned: Option<int>`. It also holds the
  platform calls made so far as `trace`. The handler is a method. Its effect is
  given by the function `Step`. `Step` says which calls one event makes: a
  send that raises leaves the slot empty, and a send that succeeds is followed
  by a pin of the id it returned, which the slot keeps. The invariant
  `TraceShape` holds across every event and sees only the calls: first some
  sends, then a pin of the slot's id in the chat of the send just before it,
  then only edits of that id.
- **Webhook gate** (`webhook.dfy`). It decides on the `Content-Type` header,
  and on whether the body decodes: a body `Update.de_json` cannot read raises,
  and Flask answers that with 500.

Supporting modules: `wrappers.dfy` (Option), `pystr.dfy` (Python's `str(int)`,
`lstrip`, `strip`, `join`, and a digit reader as the inverse of `str(int)`) and
`html.dfy` (Python's `html.escape(s, quote=True)` and its inverse).

The platform client is not modelled. Each call the handler makes is recorded
as an `Action` with the arguments the code passes. The platform's answers are a
`Replies` value chosen by the caller: the new message id, or `None` when
`send_message` raises, plus whether the pin and the edit succeed. Every
contract therefore holds for every possible outcome.

Where the code and its documentation disagree, the model follows the code:

- The docstring at welcome_app.py:32 says `-1003056610802` gives `3239080709`.
  The code gives `3056610802` (`InternalChatIdDocstringExample`).

Behaviour of the code worth knowing, which the model keeps:

- A first name made only of whitespace is truthy. It is therefore kept, and
  `strip()` turns it into an empty label (`BlankNameGivesEmptyLabel`). The
  fallback `"ospite"` is used only for a missing or empty name.
- `send_message` (welcome_app.py:97-104) is outside any `try`. When it raises,
  the exception leaves the handler and the slot stays empty (`Step`,
  `raised`). Only pin and edit failures are caught and logged.
- The base link computed at welcome_app.py:70 is never used afterwards.
  `ComposeWelcome` computes it and discards it too.
- The content-type check compares the whole header with `application/json`.
  A header such as `application/json; charset=utf-8` is therefore rejected.

## Model

| member | source | states |
|---|---|---|
| PyStr.IntToString | welcome_app.py:34 | `str(n)` is non-empty; it starts with `-` exactly when `n` is negative; the rest is the decimal digits of `abs(n)` |
| PyStr.ParseIntOfIntToString | welcome_app.py:34 | reading `str(n)` back as an integer gives `n`, so the text identifies the number |
| PyStr.StartsWith | welcome_app.py:35 | `s.startswith(prefix)`: the prefix fits and the first `len(prefix)` characters are the prefix; `InternalChatIdOfPrefixed` and `InternalChatId` state what the resolver does in each case |
| PyStr.LStripChar | welcome_app.py:35 | `lstrip("-")` removes a prefix made only of `-`, and the result does not start with `-` |
| PyStr.IsSpace | welcome_app.py:56 | Python's `str.isspace` for one character: code points 9-13 (tab to carriage return), 28-32 (the four separators and the space), U+0085, U+00A0, U+1680, U+2000-U+200A, U+2028, U+2029, U+202F, U+205F and U+3000; it is what `strip()` removes |
| PyStr.Strip | welcome_app.py:56 | `strip()` leaves no whitespace at either end and never lengthens the text; `StripRemovesOnlyOuterSpace` says which piece it keeps |
| PyStr.StripRemovesOnlyOuterSpace | welcome_app.py:56 | with `i` the length of the leading whitespace, `strip()` gives exactly the slice of the input that starts at `i`, and everything before `i` and after that slice is whitespace |
| PyStr.StripEmptyIffBlank | welcome_app.py:56 | `strip()` gives the empty string exactly when the input is all whitespace |
| PyStr.StripTrimmed | welcome_app.py:56 | a string with no whitespace at either end is unchanged by `strip()` |
| Html.Escape | welcome_app.py:57 | `html.escape(s, quote=True)`: `&`, `<`, `>`, `"`, `'` become `&amp;`, `&lt;`, `&gt;`, `&quot;`, `&#x27;`, other characters are kept in order; the three lemmas below state its properties |
| Html.EscapeHasNoMarkup | welcome_app.py:57 | `html.escape` output contains no raw `<`, `>`, `"` or `'` |
| Html.EscapePlain | welcome_app.py:57 | text without `&`, `<`, `>`, `"`, `'` is unchanged by escaping |
| Html.UnescapeEscape | welcome_app.py:57 | escaping loses nothing: unescaping gives the original text back |
| ChatLink.InternalChatId | welcome_app.py:29-35 | the result is digits only and never starts with `-`; with a `-100` prefix, `str(chat_id)` is exactly `-100` plus the result; otherwise the result is exactly `str(abs(chat_id))`, which reads back as `abs(chat_id)` |
| ChatLink.InternalChatIdDocstringExample | welcome_app.py:32-35 | `-1003056610802` gives `3056610802`, not the docstring's `3239080709` |
| ChatLink.InternalChatIdOfPrefixed | welcome_app.py:34-35 | an id whose `str()` is `-100` followed by some text has that text as its internal id |
| ChatLink.InternalChatIdSignOnly | welcome_app.py:35 | `-42` and `42` both give `42` |
| ChatLink.InternalChatIdOfBarePrefix | welcome_app.py:35 | `-100` is all prefix and gives the empty string |
| ChatLink.ChatLinkBase | welcome_app.py:38-41 | a non-empty username gives `https://t.me/<username>`; otherwise the link is `https://t.me/c/` followed by the internal id, which is digits only |
| ChatLink.PublicLinkIgnoresId | welcome_app.py:39-40 | with a username, the numeric id does not affect the link |
| Welcome.GivenOrFallback | welcome_app.py:56 | `first_name or "ospite"`: the first name when it is present and non-empty, `ospite` otherwise; `DisplayNameFallback` and `DisplayNameOfGivenName` state the two cases |
| Welcome.DisplayName | welcome_app.py:56 | the display name has no whitespace at either end |
| Welcome.DisplayNameOfGivenName | welcome_app.py:56 | a present, non-empty first name is shown as exactly its slice after the leading whitespace, and everything dropped on either side is whitespace |
| Welcome.DisplayNameExample | welcome_app.py:56 | the first name `" Bob "` is shown as `Bob` |
| Welcome.DisplayNameFallback | welcome_app.py:56 | a missing or empty first name gives `ospite` |
| Welcome.Label | welcome_app.py:56-57 | the anchor text of a mention: the display name, HTML-escaped; `LabelProperties` and `BlankNameGivesEmptyLabel` state its properties |
| Welcome.LabelProperties | welcome_app.py:56-57 | the label has no raw `<`, `>`, `"` or `'`; it unescapes to the display name; it is `ospite` for a missing or empty name |
| Welcome.BlankNameGivesEmptyLabel | welcome_app.py:56 | a non-empty, all-whitespace first name gives an empty label |
| Welcome.Render | welcome_app.py:57 | an anchor as HTML: `<a href="tg://user?id=`, the id as `str()` gives it, `">`, the caption, `</a>`; `ParseRendered` is its inverse |
| Welcome.Mention | welcome_app.py:57 | the mention of one member: the anchor with the member's id and label, rendered; `MentionsRoundTrip` and `LabelsReadBackAsNames` state what it reads back as |
| Welcome.Mentions | welcome_app.py:54-58 | one mention per member: as many mentions as members |
| Welcome.MentionsAt | welcome_app.py:54-58 | the k-th mention is the k-th member's mention, so the order of the input is kept |
| Welcome.MentionsSnoc | welcome_app.py:55-58 | one more member at the end of the list adds its mention at the end, and changes no earlier mention |
| Welcome.BuildMentions | welcome_app.py:54-58 | the loop collects exactly the mentions `Mentions` gives: one per member, in input order |
| Welcome.ParseRendered | welcome_app.py:57 | a mention whose label has no `<` reads back as its id and label, and leaves the following text untouched |
| PyStr.Join | welcome_app.py:60 | `sep.join(xs)`: empty for no pieces, the piece itself for one piece, and for one or more pieces it starts with the first piece; `JoinedRoundTrip` states that joined anchors read back piece by piece |
| Welcome.JoinedRoundTrip | welcome_app.py:60 | pieces that each read as one anchor, joined with `", "`, read back as those anchors, in order |
| Welcome.RenderedRoundTrip | welcome_app.py:57-60 | joined mentions with `<`-free labels read back as exactly their anchors, in order |
| Welcome.MentionsRoundTrip | welcome_app.py:54-60 | the `", "`-joined mentions read back as exactly one anchor per member, in input order, each linking to that member's id |
| Welcome.LabelsReadBackAsNames | welcome_app.py:56-57 | each anchor's text unescapes to its member's display name |
| Welcome.WelcomeText | welcome_app.py:63-67 | the message body: the fixed opening, the `", "`-joined mentions, then the fixed closing; `WelcomeTextRoundTrip` states what it reads back as |
| Welcome.WelcomeTextRoundTrip | welcome_app.py:60-67 | the full welcome text is the fixed opening, the joined mentions and the fixed closing, and its mentions read back as one per member, in order |
| Welcome.WelcomeKeyboard | welcome_app.py:73-89 | the fixed inline keyboard as rows of (text, url) buttons; `WelcomeKeyboardLayout` states its shape and links, `BuildMarkup` that the `add` calls build it |
| Welcome.WelcomeKeyboardLayout | welcome_app.py:73-89 | four rows of 2, 2, 1 and 1 buttons, linking to info, discounts, reviews, giveaways and announce from the section links, then the booking deep link |
| Welcome.Markup.constructor | welcome_app.py:73 | a new markup has no rows |
| Welcome.Markup.Add | welcome_app.py:74-89 | each `add` call appends its buttons as one new row and keeps the earlier rows |
| Welcome.BuildMarkup | welcome_app.py:73-89 | the four `add` calls build exactly the welcome keyboard, on a fresh markup object |
| PinnedWelcome.ThreadArgument | welcome_app.py:91-93 | the thread id is passed exactly when it is present and non-zero, and it is passed unchanged |
| PinnedWelcome.ComposeWelcome | welcome_app.py:53-89 | the handler's text and keyboard are the welcome text for the new members and the welcome keyboard |
| PinnedWelcome.Step | welcome_app.py:96-125 | with the slot empty: one send, then a pin of the returned id, which the slot keeps; or, when the send raises, an empty slot and an escaping exception. With an id stored: one edit of that id, no send or pin, and the slot unchanged. Every call targets the event's chat; sends and edits carry the welcome text and keyboard |
| PinnedWelcome.FailuresAreSwallowed | welcome_app.py:107-125 | whether a pin or an edit fails changes neither the slot nor the calls made |
| PinnedWelcome.StepPreservesShape | welcome_app.py:96-125 | each event keeps the invariant on the calls made: only sends while the slot is empty; once it is set, sends, then one pin of the stored id in the chat of the send just before it, then only edits of that id (that the earlier sends raised and that the pinned id is the one the send returned is stated by `Step`) |
| PinnedWelcome.Run | welcome_app.py:96-125 | successive handler runs on the shared slot: each event's `Step` starts from the slot the previous one left, and the calls are concatenated in order; `RunPreservesShape`, `PinnedIdIsForever` and `AtMostOnePin` state its properties |
| PinnedWelcome.RunPreservesShape | welcome_app.py:96-125 | any sequence of events keeps that invariant on the calls: only sends while the slot is empty, then one pin of the stored id in the chat of the send before it, then only edits of that id |
| PinnedWelcome.PinnedIdIsForever | welcome_app.py:96-125 | once the slot holds an id, it never changes or becomes empty, and each later event makes exactly one call, an edit of that id |
| PinnedWelcome.AtMostOnePin | welcome_app.py:96-112 | over any history, at most one pin is made, and it pins the id in the slot |
| PinnedWelcome.WelcomeBot.constructor | welcome_app.py:44 | at start-up the slot is empty and no call has been made |
| PinnedWelcome.WelcomeBot.WelcomeNewMember | welcome_app.py:48-125 | the handler changes the slot and appends calls exactly as `Step` says, reports an escaping exception exactly when `Step` does, and keeps the invariant |
| Webhook.WebhookStatus | welcome_app.py:134-138 | 403 exactly when the content type is not `application/json`; with that content type, 500 exactly when the body does not decode, otherwise 200 |
| Webhook.TelegramWebhook | welcome_app.py:132-138 | a rejected or undecodable request, or one without new members, changes nothing and makes no platform call; an accepted new-member update runs exactly one welcome event; the status does not depend on how the handler ends |

## Left out

- Flask routing and serving are not modelled: `/health`, the path that ends in the bot token (a wrong path is Flask's 404), and `app.run` (welcome_app.py:128-133, 152-154).
- The TeleBot client is not modelled: `send_message`, `pin_chat_message`, `edit_message_text`, `Update.de_json` and `process_new_updates`. Calls are recorded as `Action` values, and answers come from `Replies`. What `Update.de_json` makes of the body is the `Update` parameter of `TelegramWebhook`: undecodable, an update with new members, or any other update.
- TelegramWebhook: runs the handler synchronously and then answers 200. TeleBot's default threaded dispatch, which keeps a handler exception away from the HTTP answer, is not modelled.
- Welcome.Markup.Add: TeleBot splits one `add` call's buttons into rows of at most `row_width` (3 by default). Every call in the handler passes one or two buttons, so the model appends one row per call.
- Environment loading, start-up aborts and webhook registration are external configuration (welcome_app.py:9-12, 141-150).
- `print` logging is output only. Pin and edit failures appear only as flags in `Replies`, which no later step reads.
- Concurrent handler runs racing on `PINNED_MSG_ID` are not modelled; events run one after another.
- The template and button texts are kept verbatim as constant strings; nothing depends on their content beyond their position.
- Html.Escape: Python strings may hold lone surrogate code points, Dafny characters cannot; escaping is modelled over Unicode scalar values.
