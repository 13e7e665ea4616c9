/**
 * The webhook endpoint's decision: a request whose `Content-Type` header is
 * exactly `application/json` is decoded and dispatched and answered with
 * 200; a body that does not decode raises, which Flask answers with 500;
 * anything else is aborted with 403 before any handler runs.
 */
module Webhook {
  import opened Wrappers
  import opened PinnedWelcome

  const JsonContentType: string := "application/json"

  /**
   * What `Update.de_json` makes of the request body: it raises on a body that
   * is not a JSON object, gives an update that carries new chat members (the
   * only kind a handler is registered for), or gives any other update.
   */
  datatype Update =
    | Undecodable
    | OtherUpdate
    | NewMembers(msg: Message)

  /** The status of a webhook call, from the `Content-Type` header (`None` when absent) and the body. */
  function WebhookStatus(contentType: Option<string>, update: Update): (status: int)
    ensures status == 403 <==> contentType != Some(JsonContentType)
    ensures status == 500 <==> contentType == Some(JsonContentType) && update.Undecodable?
    ensures status == 200 <==> contentType == Some(JsonContentType) && !update.Undecodable?
  {
    if contentType != Some(JsonContentType) then 403
    else if update.Undecodable? then 500
    else 200
  }

  /** `telegram_webhook`. */
  method TelegramWebhook(bot: WelcomeBot, contentType: Option<string>, update: Update, replies: Replies)
    returns (status: int)
    requires bot.Valid()
    modifies bot
    ensures bot.Valid()
    ensures status == WebhookStatus(contentType, update)
    // a rejected or undecodable request, or one without new members, reaches no handler and makes no platform call
    ensures status != 200 || !update.NewMembers? ==> bot.pinned == old(bot.pinned) && bot.trace == old(bot.trace)
    // an accepted new-member update runs exactly one welcome event, and the answer is 200 however it ends
    ensures status == 200 && update.NewMembers? ==>
              && bot.pinned == Step(old(bot.pinned), update.msg, replies).pinned
              && bot.trace == old(bot.trace) + Step(old(bot.pinned), update.msg, replies).actions
  {
    if contentType != Some(JsonContentType) {
      status := 403;
    } else if update.Undecodable? {
      // the exception from `de_json` leaves the view before any dispatch
      status := 500;
    } else {
      if update.NewMembers? {
        var raised := bot.WelcomeNewMember(update.msg, replies);
      }
      status := 200;
    }
  }
}
