/** The mention-moderation rule of `on_message` (main.py:52-84): which
    messages are punished, and which platform calls the handler makes for a
    message given how each of those calls ends. */
module Moderation {
  import opened Text
  import opened Config
  import opened Events
  import opened Wrappers

  /** The author of a message as the handler sees it: the user's id, the bot
      flag, the display name used in the notice and the names of their roles.
      `roles` is None when the author is a `discord.User` rather than a guild
      `Member` (a direct message, for one), which has no `roles` attribute. */
  datatype Author = Author(id: nat, isBot: bool, displayName: string, roles: Option<seq<string>>)

  /** A posted message: its id, its channel, its author, the user names
      (`mention.name`) of the users it mentions and the names of the roles it
      mentions, in the platform's order. */
  datatype Message = Message(id: nat, channel: nat, author: Author, mentions: seq<string>, roleMentions: seq<string>)

  datatype Verdict = Ignore | Enforce

  /** A name is blocked when its lowercase form is one of BLOCKED_NAMES
      exactly (list membership, not a substring test). */
  predicate IsBlocked(name: string) {
    Lower(name) in BLOCKED_NAMES
  }

  predicate AnyBlocked(names: seq<string>) {
    exists i :: 0 <= i < |names| && IsBlocked(names[i])
  }

  /** Some mentioned user name or some mentioned role name is blocked. */
  predicate Triggered(m: Message) {
    AnyBlocked(m.mentions) || AnyBlocked(m.roleMentions)
  }

  /** The author holds a role named exactly TARGET_ROLE_NAME (main.py:68). */
  predicate HasTargetRole(roles: seq<string>) {
    exists i :: 0 <= i < |roles| && roles[i] == TARGET_ROLE_NAME
  }

  /** The decision of main.py:53-70. */
  function Evaluate(m: Message): Verdict {
    if !m.author.isBot && Triggered(m) && m.author.roles.Some? && HasTargetRole(m.author.roles.value)
    then Enforce else Ignore
  }

  /** A triggered message whose author has no `roles` makes main.py:68 raise
      an AttributeError outside the `try`, which ends the handler. */
  predicate RaisesOnRoles(m: Message) {
    !m.author.isBot && Triggered(m) && m.author.roles.None?
  }

  /** The two loops of main.py:56-64 that compute the `triggered` flag. */
  method ScanMentions(m: Message) returns (triggered: bool)
    ensures triggered <==> ((exists i :: 0 <= i < |m.mentions| && IsBlocked(m.mentions[i]))
                         || (exists i :: 0 <= i < |m.roleMentions| && IsBlocked(m.roleMentions[i])))
  {
    triggered := false;
    for i := 0 to |m.mentions|
      invariant triggered <==> exists j :: 0 <= j < i && IsBlocked(m.mentions[j])
    {
      if Lower(m.mentions[i]) in BLOCKED_NAMES {
        triggered := true;
      }
    }
    for i := 0 to |m.roleMentions|
      invariant triggered <==> AnyBlocked(m.mentions) || exists j :: 0 <= j < i && IsBlocked(m.roleMentions[j])
    {
      if Lower(m.roleMentions[i]) in BLOCKED_NAMES {
        triggered := true;
      }
    }
  }

  /** The three calls of the `try` block, in source order (main.py:72-79):
      a timeout until `now` + TIMEOUT_SECONDS, the deletion of the message,
      and the notice in the message's channel. */
  function RemedialPlan(m: Message, now: int): seq<Effect> {
    [ SetTimeout(m.author.id, now + TIMEOUT_SECONDS, TIMEOUT_REASON),
      DeleteMessage(m.id),
      SendMessage(m.channel, Notice(m.author.displayName)) ]
  }

  /** The line printed at the end of the `try` block, or by its `except`. */
  function OutcomeLine(m: Message, results: seq<Outcome>): LogLine {
    match FirstError(results)
    case None => TimedOut(m.author.displayName)
    case Some(e) => TimeoutFailed(e)
  }

  /** Everything `on_message` does for message `m`, received at time `now`,
      when the timeout, the deletion and the notice end with `results[0]`,
      `results[1]` and `results[2]`. */
  function MessageEffects(m: Message, now: int, results: seq<Outcome>): seq<Effect>
    requires |results| == 3
  {
    if m.author.isBot then []
    else if RaisesOnRoles(m) then [HandlerRaised]
    else
      (if Evaluate(m) == Enforce
       then Attempted(RemedialPlan(m, now), results) + [Log(OutcomeLine(m, results))]
       else [])
      + [ProcessCommands(m.id)]
  }

  /** Example names: mixed case matches, a longer
      name does not, and the role test is case-sensitive. */
  lemma MatchingExamples()
    ensures IsBlocked("Tripex") && IsBlocked("OWNER") && IsBlocked("ma1eja")
    ensures !IsBlocked("tripex2") && !IsBlocked("owners") && !IsBlocked("Members")
    ensures HasTargetRole(["everyone", "Members"]) && !HasTargetRole(["members"]) && !HasTargetRole([])
  {
    assert Lower("Tripex") == "tripex";
    assert Lower("OWNER") == "owner";
    assert Lower("ma1eja") == "ma1eja";
    assert Lower("Members") == "members";
    assert Lower("tripex2") == "tripex2";
    assert Lower("owners") == "owners";
    assert ["everyone", "Members"][1] == TARGET_ROLE_NAME;
  }

  /** Matching is case-insensitive: two names that differ only in the case
      of their letters are blocked alike. */
  lemma BlockedIgnoresCase(s: string, t: string)
    requires |s| == |t| && forall i :: 0 <= i < |s| ==> LowerChar(s[i]) == LowerChar(t[i])
    ensures IsBlocked(s) <==> IsBlocked(t)
  {
    assert Lower(s) == Lower(t);
  }

  /** A message is punished exactly when its author is not a bot, it mentions
      a blocked user or role name, and its author holds the target role. */
  lemma EnforceIff(m: Message)
    ensures Evaluate(m) == Enforce <==>
      && !m.author.isBot
      && ((exists i :: 0 <= i < |m.mentions| && Lower(m.mentions[i]) in BLOCKED_NAMES)
          || (exists i :: 0 <= i < |m.roleMentions| && Lower(m.roleMentions[i]) in BLOCKED_NAMES))
      && m.author.roles.Some?
      && (exists i :: 0 <= i < |m.author.roles.value| && m.author.roles.value[i] == "Members")
  {
  }

  /** A bot's message gets no action at all, not even command processing. */
  lemma BotMessageHasNoEffects(m: Message, now: int, results: seq<Outcome>)
    requires |results| == 3 && m.author.isBot
    ensures Evaluate(m) == Ignore && MessageEffects(m, now, results) == []
  {
  }

  /** For any other author, commands are processed exactly once, as the last
      step, whatever the verdict and however the remedial calls end, unless
      the role lookup raised; then nothing else happens and commands are not
      processed. */
  lemma ProcessCommandsOnceAtEnd(m: Message, now: int, results: seq<Outcome>)
    requires |results| == 3 && !m.author.isBot
    ensures var e := MessageEffects(m, now, results);
      && (!RaisesOnRoles(m) ==>
            && e != [] && e[|e| - 1] == ProcessCommands(m.id)
            && forall i :: 0 <= i < |e| - 1 ==> !e[i].ProcessCommands?)
      && (RaisesOnRoles(m) ==> e == [HandlerRaised])
  {
  }

  /** A direct message mentioning a blocked name ends the handler with an
      exception, and commands are not processed; one that mentions no blocked
      name is processed for commands as usual. */
  lemma UserAuthorExample(now: int, results: seq<Outcome>)
    requires |results| == 3
    ensures var author := Author(1, false, "dm user", None);
      && MessageEffects(Message(2, 3, author, ["Owner"], []), now, results) == [HandlerRaised]
      && MessageEffects(Message(2, 3, author, ["friend"], []), now, results) == [ProcessCommands(2)]
  {
    assert Lower("Owner") == "owner";
    assert Lower("friend") == "friend";
    assert ["Owner"][0] == "Owner";
  }

  /** A platform call is made for the message exactly when it is punished;
      an ignored message only reaches command processing (or raises). */
  lemma ActionsIffEnforce(m: Message, now: int, results: seq<Outcome>)
    requires |results| == 3 && !m.author.isBot
    ensures Evaluate(m) == Ignore && !RaisesOnRoles(m) ==> MessageEffects(m, now, results) == [ProcessCommands(m.id)]
    ensures Evaluate(m) == Enforce ==> MessageEffects(m, now, results)[0] == RemedialPlan(m, now)[0]
  {
  }

  /** The order and the short circuit of the single `try` block: the timeout
      comes first; the deletion is attempted only after the timeout succeeded,
      the notice only after the deletion succeeded; the first failure is
      printed and does not escape, and command processing follows. */
  lemma EnforcementSequence(m: Message, now: int, t: Outcome, d: Outcome, s: Outcome)
    requires Evaluate(m) == Enforce
    ensures var e := MessageEffects(m, now, [t, d, s]);
      var timeout := SetTimeout(m.author.id, now + 1800, "Mentioned protected user or role");
      var delete := DeleteMessage(m.id);
      var notice := SendMessage(m.channel, Notice(m.author.displayName));
      var done := ProcessCommands(m.id);
      && (t.Fail? ==> e == [timeout, Log(TimeoutFailed(t.error)), done])
      && (t.Ok? && d.Fail? ==> e == [timeout, delete, Log(TimeoutFailed(d.error)), done])
      && (t.Ok? && d.Ok? && s.Fail? ==> e == [timeout, delete, notice, Log(TimeoutFailed(s.error)), done])
      && (t.Ok? && d.Ok? && s.Ok? ==> e == [timeout, delete, notice, Log(TimedOut(m.author.displayName)), done])
  {
    var plan := RemedialPlan(m, now);
    AttemptedOfThree(plan[0], plan[1], plan[2], t, d, s);
    FirstErrorOfThree(t, d, s);
  }

  /** Once a remedial call fails, the outcomes the later calls would have had
      make no difference: they are never attempted. */
  lemma LaterOutcomesIrrelevant(m: Message, now: int, a: seq<Outcome>, b: seq<Outcome>, k: nat)
    requires |a| == |b| == 3 && k < 3 && a[k].Fail? && a[..k + 1] == b[..k + 1]
    ensures MessageEffects(m, now, a) == MessageEffects(m, now, b)
  {
    AttemptedIgnoresLaterOutcomes(RemedialPlan(m, now), a, b, k);
    FirstErrorIgnoresLaterOutcomes(a, b, k);
  }

  lemma {:induction false} FirstErrorIgnoresLaterOutcomes(a: seq<Outcome>, b: seq<Outcome>, k: nat)
    requires |a| == |b| && k < |a| && a[k].Fail? && a[..k + 1] == b[..k + 1]
    ensures FirstError(a) == FirstError(b)
  {
    if k > 0 {
      assert a[0] == a[..k + 1][0] && b[0] == b[..k + 1][0];
      assert a[1..][..k] == a[..k + 1][1..] && b[1..][..k] == b[..k + 1][1..];
      FirstErrorIgnoresLaterOutcomes(a[1..], b[1..], k - 1);
    }
  }

  /** Every timeout requested lasts TIMEOUT_SECONDS from `now` with the fixed
      reason, and every message sent is the notice naming the author, saying
      "30 minutes" and giving the reason. */
  lemma RemedyParameters(m: Message, now: int, results: seq<Outcome>)
    requires |results| == 3
    ensures var e := MessageEffects(m, now, results);
      && (forall i :: 0 <= i < |e| && e[i].SetTimeout? ==>
            e[i] == SetTimeout(m.author.id, now + 1800, "Mentioned protected user or role"))
      && (forall i :: 0 <= i < |e| && e[i].SendMessage? ==>
            e[i].channel == m.channel && e[i].text[..|m.author.displayName|] == m.author.displayName
            && Contains(e[i].text, "30 minutes")
            && Contains(e[i].text, " for mentioning a protected user or role."))
  {
  }
}
