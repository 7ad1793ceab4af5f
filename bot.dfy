/** The bot's event handlers as imperative code over a record of everything
    they have made happen so far. */
module Handlers {
  import opened Config
  import opened Events
  import opened Moderation
  import opened Tickets
  import opened Wrappers

  class Bot {
    /** Every platform call, console line and command hand-over, oldest first. */
    var effects: seq<Effect>

    constructor ()
      ensures effects == []
    {
      effects := [];
    }

    /** `on_message` (main.py:52-84). `now` stands for `discord.utils.utcnow()`;
        the three outcomes say how the timeout, the deletion and the notice end
        if they are attempted. */
    method OnMessage(m: Message, now: int, timeoutResult: Outcome, deleteResult: Outcome, noticeResult: Outcome)
      modifies this
      ensures effects == old(effects) + MessageEffects(m, now, [timeoutResult, deleteResult, noticeResult])
    {
      if m.author.isBot {
        return;
      }
      ghost var before := effects;
      var triggered := ScanMentions(m);
      assert triggered == Triggered(m);
      if triggered {
        if m.author.roles.None? {
          // `member.roles` raises AttributeError, which leaves the handler
          effects := effects + [HandlerRaised];
          return;
        }
        var hasTargetRole := HasTargetRole(m.author.roles.value);
        if hasTargetRole {
          ghost var results := [timeoutResult, deleteResult, noticeResult];
          ghost var plan := RemedialPlan(m, now);
          AttemptedOfThree(plan[0], plan[1], plan[2], timeoutResult, deleteResult, noticeResult);
          FirstErrorOfThree(timeoutResult, deleteResult, noticeResult);
          // try:
          var failure: Option<string> := None;
          effects := effects + [SetTimeout(m.author.id, now + TIMEOUT_SECONDS, TIMEOUT_REASON)];
          if timeoutResult.Fail? {
            failure := Some(timeoutResult.error);
          } else {
            effects := effects + [DeleteMessage(m.id)];
            if deleteResult.Fail? {
              failure := Some(deleteResult.error);
            } else {
              effects := effects + [SendMessage(m.channel, Notice(m.author.displayName))];
              if noticeResult.Fail? {
                failure := Some(noticeResult.error);
              }
            }
          }
          assert effects == before + Attempted(plan, results);
          assert failure == FirstError(results);
          // the last line of the try block, or the except clause
          match failure {
            case None => effects := effects + [Log(TimedOut(m.author.displayName))];
            case Some(e) => effects := effects + [Log(TimeoutFailed(e))];
          }
        }
      }
      effects := effects + [ProcessCommands(m.id)];
    }

    /** `on_guild_channel_create` (main.py:86-94); `sent` says how sending
        the greeting ends. */
    method OnGuildChannelCreate(ch: Channel, sent: Outcome)
      modifies this
      ensures effects == old(effects) + ChannelEffects(ch, sent)
    {
      if ch.kind == TextChannel && ch.categoryId == Some(TICKET_CATEGORY_ID) {
        effects := effects + [SendMessage(ch.id, TICKET_GREETING)];
        if sent.Ok? {
          effects := effects + [Log(GreetingSent(ch.name))];
        } else {
          effects := effects + [Log(GreetingFailed(sent.error))];
        }
      }
    }
  }
}
