# MentionGuardBot moderation rules in Dafny

MentionGuardBot is a small Discord moderation bot. This project models the
logic inside its event handlers in `main.py`:

- **Mention moderation (`on_message`).** A message from a bot is ignored. Any other message is *triggered* when a mentioned user name or a mentioned role name, lowercased, is exactly one of `tripex`, `ma1eja` or `owner`. A triggered message is punished only when its author holds a role named exactly `Members`. Punishment is one `try` block with three calls: a 30-minute timeout, deleting the message, and posting a notice. The first call that fails stops the block, and its error is printed. After that, command processing runs. The one exception is a triggered message whose author is a plain user rather than a guild member (a direct message, for one): reading the author's roles raises outside the `try`, the handler ends, and commands are not processed.
- **Ticket greeting (`on_guild_channel_create`).** A greeting is posted into a new text channel whose category is the ticket category.
- **`/clean`.** A caller without the manage-messages permission is refused, and so is a call with neither a user nor a user id. Otherwise the target is the user's id if a user was given, else the user id text. The purge scans `amount` messages (100 when the argument is left out) and deletes those whose author id, written as text, equals the target text. The reply reports how many were deleted.

Modules:

- `Wrappers` (`wrappers.dfy`): the `Option` type used by the other modules.
- `Text` (`text.dfy`): ASCII lowercasing, substring search, and decimal rendering of ids (`str(n)`) with its inverse.
- `Config` (`config.dfy`): the constants and fixed texts.
- `Events` (`events.dfy`): the outside-world effects recorded as values, plus the "attempt in order, stop at the first failure" rule of one `try` block.
- `Moderation` (`moderation.dfy`): the message record, the verdict, the two mention-scanning loops, and what `on_message` does.
- `Tickets` (`tickets.dfy`): the greeting condition and its effects.
- `Clean` (`clean.dfy`): the `/clean` command.
- `Handlers` (`bot.dfy`): a `Bot` class whose handler methods append to its `effects` log. Each method is proved to append exactly what the matching specification function describes.

No external call is made. How each timeout, delete, send and purge call ends (`Ok`, or `Fail` with the exception text) is an input, and so is the current time `now`.

- The three remedial calls share one `try` (main.py:71-82). So a failed timeout means no deletion and no notice, and a failed deletion means no notice.
- `/clean` puts no bound on `amount`.

The specification functions `Moderation.Evaluate`, `Moderation.MessageEffects`, `Tickets.IsTicketChannel`, `Tickets.ChannelEffects` and `Clean.Matches` compute without contracts of their own. What they mean is stated by the lemmas about them in the table below: `EnforceIff` for `Evaluate`; `ProcessCommandsOnceAtEnd`, `EnforcementSequence`, `LaterOutcomesIrrelevant` and `RemedyParameters` for `MessageEffects`; `GreetingOnlyForTickets` for the two ticket functions; and `Matching`, `UserPreferredAndDeletesTheirMessages` and `IdTextMatches` for `Matches`.

## Model

| member | source | states |
|---|---|---|
| Text.Lower | main.py:59 | the lowercased name has the same length, each upper-case ASCII letter becomes its lower-case letter, every other character is kept, and no upper-case ASCII letter remains |
| Text.LowerIdempotent | main.py:59 | lowercasing an already lowercased name changes nothing |
| Text.Decimal | main.py:122 | `str` of an id is a non-empty digit string with no leading zero except for 0 |
| Text.ParseDecimalOfDecimal | main.py:122 | reading back the decimal text of an id gives the id |
| Text.DecimalInjective | main.py:122 | two ids have equal decimal texts exactly when the ids are equal |
| Config.Notice | main.py:77-79 | the notice starts with the member's display name and contains "30 minutes" and the reason " for mentioning a protected user or role." |
| Config.NoticeDurationIsTimeout | main.py:73-78 | the duration the notice names is the decimal text of TIMEOUT_SECONDS / 60 followed by " minutes", so the notice and the 1800-second timeout agree |
| Events.Attempted | main.py:71-82 | the calls a single `try` attempts are a prefix of the planned calls, and at least the first call is attempted |
| Events.AttemptedStopsAtFirstFailure | main.py:71-82 | every attempted call except the last succeeded; with no failure every call is attempted; otherwise the last attempted call raised the first error |
| Events.AttemptedIgnoresLaterOutcomes | main.py:71-82 | after the first failure, the outcomes of the later calls cannot change what is attempted |
| Moderation.ScanMentions | main.py:56-64 | the two loops set `triggered` exactly when some mentioned user name or some mentioned role name is blocked |
| Moderation.MatchingExamples | main.py:35-36 | "Tripex", "OWNER" and "ma1eja" are blocked; "tripex2", "owners" and "Members" are not; a role "Members" qualifies and "members" does not |
| Moderation.BlockedIgnoresCase | main.py:59 | two names that differ only in the case of their letters are blocked alike |
| Moderation.EnforceIff | main.py:52-70 | a message is punished exactly when the author is not a bot, a mentioned user or role name lowercases to a blocked name, and the author is a member with a role named exactly "Members" |
| Moderation.BotMessageHasNoEffects | main.py:53-54 | a bot's message is ignored and causes no effect at all, not even command processing |
| Moderation.ProcessCommandsOnceAtEnd | main.py:66-84 | for every other author, command processing happens exactly once and as the last effect, whatever the verdict and the call outcomes, unless the message is triggered and its author is not a guild member; then the role lookup raises and nothing else happens |
| Moderation.UserAuthorExample | main.py:66-68 | a direct message mentioning "Owner" ends in an escaping exception without command processing; one mentioning "friend" is only processed for commands |
| Moderation.ActionsIffEnforce | main.py:66-84 | an ignored message that does not raise only reaches command processing; on a punished one the timeout is the first effect |
| Moderation.EnforcementSequence | main.py:71-82 | on a punished message, the effects for each way the three calls can end: timeout, then delete only if the timeout succeeded, then notice only if the deletion succeeded; the first error is printed and command processing follows |
| Moderation.LaterOutcomesIrrelevant | main.py:71-82 | once a remedial call fails, the outcomes of the later calls make no difference to the handler |
| Moderation.RemedyParameters | main.py:72-79 | every timeout lasts until now + 1800 with reason "Mentioned protected user or role"; every message sent goes to the message's channel, names the author, says "30 minutes" and gives the reason " for mentioning a protected user or role." |
| Tickets.GreetingOnlyForTickets | main.py:88-94 | a greeting is sent exactly when the channel is a text channel in category 1337877093735731291, at most once, into that channel and with the fixed text; any other channel gets no effect |
| Clean.TargetText | main.py:113-117 | no target exactly when no user is given and the user id is absent or empty; a given user's id wins over the user id text |
| Clean.ScanCount | main.py:120-121 | the purge scans at most `amount` messages, none for a negative amount, and never more than the history holds |
| Clean.Matching | main.py:120-123 | each scanned message whose author id text equals the target is deleted as often as it was scanned, and no other message is deleted; so the reported count is the number of such scanned messages |
| Clean.Run | main.py:107-129 | a caller without permission is refused before anything else; a call with no target is refused; a failed purge gives the failure reply with its error; a successful one reports the target text; no more messages are reported deleted than were scanned, and at most 100 when `amount` is left out |
| Clean.MissingTargetIff | main.py:113-115 | a permitted call is refused for a missing target exactly when no user is given and the user id is absent or empty |
| Clean.UserPreferredAndDeletesTheirMessages | main.py:117-127 | with a user given, the user id is ignored and the reply lists each scanned message that user wrote, as often as it was scanned, and nothing else |
| Clean.IdTextMatches | main.py:117-127 | a user id text in canonical decimal form deletes each scanned message of the author it names, as often as it was scanned, and nothing else; a text with a non-digit or a leading zero deletes nothing |
| Clean.CleanExampleLimit | main.py:120-125 | with `amount` 2, only the newest two messages are scanned, and one of them is deleted |
| Clean.CleanExampleDefault | main.py:107 | with `amount` left out, all three messages of the example are scanned and both messages of the target are deleted |
| Clean.CleanExampleNegative | main.py:120-121 | a negative `amount` deletes nothing |
| Clean.NothingMatchesNothingDeleted | main.py:120-123 | when the check accepts no scanned message, nothing is deleted |
| Handlers.Bot.OnMessage | main.py:52-84 | the handler appends exactly the effects that `MessageEffects` describes for the message, the time and the three outcomes |
| Handlers.Bot.OnGuildChannelCreate | main.py:86-94 | the handler appends exactly the effects that `ChannelEffects` describes for the channel and the send outcome |

## Left out

- The Flask liveness server and its thread (main.py:10-24, 144): these are I/O and concurrency.
- Intents and bot construction, token loading and the startup `ValueError`, `on_ready` with the command sync, and `bot.run` (main.py:27-49, 145-146): these are process start-up and library plumbing.
- The `/clearslash` command (main.py:132-140): it is a thin wrapper over library calls behind one administrator check.
- The Discord API calls of the handlers (`member.timeout`, `message.delete`, `channel.send`, `bot.process_commands`): each is recorded as an `Effect` value, and the outcome of each of the first three is an input. `channel.purge` and the interaction replies of `/clean` are not effects: the purge is modelled by the `history` and `purge` inputs of `Clean.Run`, and the reply by its `Reply` result. `bot.process_commands` is assumed not to raise; it is the last step of the handler anyway.
- An exception escaping `on_message` is recorded as `HandlerRaised`. What the library then does with it (its `on_error` report) is not modelled.
- `discord.utils.utcnow()` is the parameter `now`, in seconds. `asyncio.sleep(2)` before the greeting is not modelled.
- Console output is recorded as `LogLine` values (for example `TimedOut(name)`), not as the printed strings with their emoji.
- Each handler runs as its own asyncio task, so the effects of overlapping events interleave at every `await` (main.py:72, 76, 77, 84, and the `asyncio.sleep(2)` at main.py:90). The model records each handler's effects as one uninterrupted block of the `effects` log.
- The `except Exception` clauses are modelled as catching every failure of an awaited call. Exceptions outside `Exception` (such as task cancellation) are not modelled.
- Clean.Run: a purge that fails is modelled as a `PurgeFailed` reply only. Messages the purge may have deleted before it failed are not modelled, and neither is a failure of the reply itself.
- Clean.ScanCount: what `purge` scans is library behaviour. It is modelled as the newest `amount` messages of the history input, and none when `amount` is below one. The library's own limits are not modelled, such as bulk deletion only of messages younger than 14 days.
- Text.Lower: Python's `str.lower()` is modelled on ASCII letters only. Other cased characters are kept unchanged.
