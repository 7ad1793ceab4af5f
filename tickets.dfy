/** The ticket greeting of `on_guild_channel_create` (main.py:86-94). */
module Tickets {
  import opened Config
  import opened Events
  import opened Wrappers

  /** The kinds of guild channel the platform creates; only `TextChannel` is a
      `discord.TextChannel` (news channels are text channels too). */
  datatype ChannelKind = TextChannel | VoiceChannel | StageChannel | ForumChannel | CategoryChannel

  /** A newly created channel: its id, name, kind and parent category, if any. */
  datatype Channel = Channel(id: nat, name: string, kind: ChannelKind, categoryId: Option<nat>)

  /** The test of main.py:88. */
  predicate IsTicketChannel(ch: Channel) {
    ch.kind == TextChannel && ch.categoryId == Some(TICKET_CATEGORY_ID)
  }

  /** Everything the handler does for `ch` when sending the greeting ends
      with `sent`. The two-second sleep before it is not modelled. */
  function ChannelEffects(ch: Channel, sent: Outcome): seq<Effect> {
    if IsTicketChannel(ch) then
      [ SendMessage(ch.id, TICKET_GREETING),
        Log(if sent.Ok? then GreetingSent(ch.name) else GreetingFailed(sent.error)) ]
    else []
  }

  /** The greeting is sent only into a text channel of the ticket category,
      exactly once, into that channel and with the fixed text; any other
      channel gets nothing at all. */
  lemma GreetingOnlyForTickets(ch: Channel, sent: Outcome)
    ensures var e := ChannelEffects(ch, sent);
      && ((exists i :: 0 <= i < |e| && e[i].SendMessage?) <==>
            ch.kind == TextChannel && ch.categoryId == Some(1337877093735731291))
      && (forall i :: 0 <= i < |e| && e[i].SendMessage? ==>
            i == 0 && e[i] == SendMessage(ch.id, "Hello! Please tell us your problem here. Tripex will reply as soon as he can."))
      && (!IsTicketChannel(ch) ==> e == [])
  {
    var e := ChannelEffects(ch, sent);
    if IsTicketChannel(ch) {
      assert e[0].SendMessage?;
    }
  }
}
