# Sobriety streak bot — Dafny model

A Telegram bot that keeps, per chat, the date of the user's last drink
and a streak counter. It reacts to three things:

- **Text messages.** `/start` gets a fixed instruction text. A text of
  the form `YYYY-MM-DD` creates or overwrites the chat's record with that
  date and streak 0, then replies with the number of whole days since
  that date. Any other text is ignored.
- **Button presses.** These come from a chat that already has a record.
  `yes` resets the streak and stamps the current time. `no` adds one to
  the streak and reports it. Both replies are followed by an
  acknowledgement of the press.
- **A daily timer.** It sends every stored chat a "did you drink
  yesterday?" prompt with a Yes and a No button.

The model has four modules:

- `DatePattern` (`date_pattern.dfy`) models the regular expression
  `^\d{4}-\d{2}-\d{2}$`. It is a sequence of fixed-count pieces matched
  against the whole input. A lemma proves it equal to a positional
  description.
- `Decimal` (`decimal.dfy`) models how an integer is written into the
  replies (`${diffDays}`, `${user.streak}`). It comes with a reader, a
  round-trip lemma and injectivity.
- `Streak` (`streak.dfy`) holds the record type, the store (a map from
  `chatId` to record), the outgoing calls and the day count. It also
  defines each handler as a pure transition from the old store to a
  `Step` (the new store plus the outgoing calls, in issue order). The
  lemmas about these transitions are here, including a fold `Run` over
  any sequence of events.
- `Bot` (`bot.dfy`) has the class `SobrietyBot`. Its field `users` is the
  collection. Its handlers are written as the program runs them: fetch
  the record, update its fields, save it back. Each handler is proved to
  give exactly the store and outgoing calls of the matching `Streak`
  transition, so the `Streak` lemmas hold of the methods too.
  `FindAll` stands in for `User.find()`. `DailyReminder` is the body of
  the daily job.

The clock (`Date.now()`, `new Date()`) is the parameter `now`, in
milliseconds. The date parser (`new Date(text).getTime()`) is the
parameter `parseDate`. `sendMessage` and `answerCallbackQuery` become
`Outgoing` values that the handlers return.

A press from a chat without a record gets no acknowledgement. The
handler returns at bot.js:79, before `answerCallbackQuery` at bot.js:92
(`UnknownChatCallbackIgnored`). A press with an unknown payload from a
known chat is acknowledged and changes nothing.

## Model

| member | source | states |
|---|---|---|
| `DatePattern.Test` | bot.js:54-55 | `datePattern.test(text)` as a whole-input match of the pieces of `^\d{4}-\d{2}-\d{2}$`; no contract of its own, `DatePattern.TestIsDateShaped` states which strings it accepts |
| `Decimal.IntToString` | bot.js:69 | the `${…}` rendering of an integer; no contract of its own, `Decimal.IntToStringRoundTrip` and `Decimal.IntToStringInjective` state its properties |
| `Streak.DaysReply` | bot.js:69 | the day-count reply text; no contract of its own, `Streak.RepliesDetermineCount` states that it determines the count |
| `Streak.NoReply` | bot.js:89 | the "no" reply text; no contract of its own, `Streak.RepliesDetermineCount` states that it determines the streak |
| `Streak.OnText` | bot.js:42-71 | the message handler as a transition; no contract of its own, `Streak.StartRepliesWithInstructions`, `Streak.OtherTextIgnored`, `Streak.DateTextUpserts`, `Streak.DateTextIdempotent` and `Streak.OnTextKeepsWellFormed` state its properties |
| `Streak.OnCallback` | bot.js:74-93 | the callback handler as a transition; no contract of its own, `Streak.UnknownChatCallbackIgnored`, `Streak.KnownChatCallback` and `Streak.OnCallbackKeepsWellFormed` state its properties |
| `Streak.Apply` | bot.js:42-96 | dispatch of one event to its handler (`message`, `callback_query`, the daily job, which changes no record); no contract of its own, `Streak.RunKeepsWellFormed` and `Streak.StreakCountsNoPresses` state its properties |
| `Streak.Run` | bot.js:42-96 | events handled one after another; no contract of its own, `Streak.RunKeepsWellFormed` and `Streak.StreakCountsNoPresses` state its properties |
| `DatePattern.TestIsDateShaped` | bot.js:54-55 | the regex accepts a string iff it has exactly 10 characters, `-` at positions 4 and 7, and ASCII digits elsewhere; `$` is end of input, so a trailing newline is refused |
| `Decimal.NatToStringReadsBack` | bot.js:69 | the digits of a natural number are non-empty, all decimal digits, and read back as the number |
| `Decimal.IntToStringRoundTrip` | bot.js:69 | reading back the printed form of any integer, negative ones included, gives the integer |
| `Decimal.IntToStringInjective` | bot.js:89 | two integers print the same iff they are equal |
| `Streak.DaysSince` | bot.js:68 | the day count `d` satisfies `d*86400000 <= now - t < (d+1)*86400000`, and `d` is negative iff the date is after `now` |
| `Streak.DaysSinceUnique` | bot.js:68 | no other integer satisfies those bounds: the reply is the floor of the day difference |
| `Streak.RepliesDetermineCount` | bot.js:69-89 | the day-count reply and the "no" reply determine their number: equal texts iff equal counts |
| `Streak.StartRepliesWithInstructions` | bot.js:46-52 | `/start` yields exactly one message, the fixed instruction text, to the same chat, and leaves the store unchanged |
| `Streak.OtherTextIgnored` | bot.js:54-70 | a message without text, or a text that is neither `/start` nor date-shaped, yields no message and no store change |
| `Streak.DateTextUpserts` | bot.js:55-69 | for a date-shaped text the chat's record afterwards is `{chatId, parseDate(text), 0}`, whether or not one existed; the key set gains only that chat; every other record is unchanged; the one reply carries the day count within the floor bounds |
| `Streak.DateTextIdempotent` | bot.js:57-66 | sending the same date text a second time, at any clock reading, leaves the store as after the first; at the same clock reading the reply is the same too |
| `Streak.UnknownChatCallbackIgnored` | bot.js:78-79 | a press from a chat without a record changes nothing, sends no message and no acknowledgement |
| `Streak.KnownChatCallback` | bot.js:81-92 | `yes` sets the streak to 0 and the date to `now` (the reset reply, then the acknowledgement); `no` sets the streak to the old one plus 1 and keeps the date (the reply with that number, then the acknowledgement); any other payload changes nothing and is only acknowledged; the key set and other chats never change |
| `Streak.PromptKeyboardPayloads` | bot.js:103-107 | the prompt's buttons carry the payloads `yes` then `no` |
| `Streak.PromptList` | bot.js:101-110 | one prompt per fetched record, in the same order, each a message to that record's chat with the prompt text and the `yes`/`no` buttons |
| `Streak.OnTextKeepsWellFormed` | bot.js:57-66 | a text message keeps every record under its own chat id with a non-negative streak and deletes no record |
| `Streak.OnCallbackKeepsWellFormed` | bot.js:81-88 | a button press keeps that invariant and the set of chats |
| `Streak.RunKeepsWellFormed` | bot.js:30-34 | after any sequence of events no streak is negative, each record sits under its own chat id, and no record has been deleted |
| `Streak.StreakCountsNoPresses` | bot.js:86-88 | if no event resets a stored chat, its streak afterwards is its old streak plus the number of `no` presses in it, and its last drink date is unchanged |
| `Bot.SobrietyBot.constructor` | bot.js:35 | the collection starts empty and well-formed |
| `Bot.SobrietyBot.OnMessage` | bot.js:42-71 | the message handler, with its in-place update of an existing record, yields exactly the store and message of `Streak.OnText`, and keeps the invariant |
| `Bot.SobrietyBot.OnCallbackQuery` | bot.js:74-93 | the callback handler, with its early return and in-place update, yields exactly the store, messages and acknowledgement of `Streak.OnCallback`, and keeps the invariant |
| `Bot.SobrietyBot.FindAll` | bot.js:98 | every stored record, each exactly once, in some order |
| `Bot.SobrietyBot.DailyReminder` | bot.js:98-110 | exactly as many prompts as stored records; every stored chat gets one, no chat gets two; each is the prompt text with buttons `yes` and `no` |

## Left out

- The HTTP health server (bot.js:9-18) is left out because it is I/O with no domain logic.
- The MongoDB connection, `findOne`, `save` and `find` (bot.js:25-27, 57, 66, 78, 84, 88, 98) are replaced by the in-memory map. Failed operations are not modelled. In the program a rejected save drops the reply, and in the callback handler (bot.js:84, 88) it also drops the acknowledgement at bot.js:92.
- Telegram polling and the network side of `sendMessage` and `answerCallbackQuery` are left out. The calls are returned as `Outgoing` values. Delivery failures are not modelled either.
- The model keeps the order in which a handler issues its calls. The delivery order is not modelled, because those calls are not awaited.
- The cron schedule `0 9 * * *`, the Europe/Moscow time zone, the log line, the `Promise.all` fan-out and its error handling (bot.js:96-117) are left out. They are timers, concurrency and logging. Only the list of prompts the job sends is modelled.
- Date parsing (bot.js:56) is the parameter `parseDate`. The model does not cover that ISO date-only strings parse as UTC midnight. It also does not cover that a regex-valid but impossible date such as `2025-13-40` gives an invalid date (NaN), which the code never checks.
- `Streak.DaysSince`: the floating-point subtraction and division in bot.js:68 are modelled as exact integer floor division. This agrees with the program as long as the dates lie within JavaScript's date range.
- Streaks are unbounded integers. JavaScript Numbers lose exactness above 2^53.
- The mongoose default `streak: 0` (bot.js:33) only matters for documents this program did not create, because every new record it creates sets the streak to 0 explicitly.
- A callback query without a message (bot.js:75 would throw) is not modelled, since the bot's own buttons always sit on a message.
- Concurrent events on the same chat can interleave their read-modify-write. This race is not modelled, because the model handles one event at a time.
