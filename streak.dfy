/**
  The streak-tracking state machine of the sobriety bot, as pure values.

  The document collection `User` becomes a `Store`: a map from `chatId`
  to the record saved under it. Each handler is a function from the old
  store and one inbound event to a `Step`: the new store and the outgoing
  platform calls (`sendMessage`, `answerCallbackQuery`), in the order the
  handler issues them. The clock (`Date.now()`, `new Date()`) is the
  parameter `now`, in milliseconds since the epoch; the date parser
  (`new Date(text)`) is the parameter `parseDate`, giving the parsed
  date's `getTime()`.
*/
module Streak {
  import DatePattern
  import Decimal

  datatype Option<T> = None | Some(value: T)

  /** One `User` document: `{chatId, lastDrinkDate, streak}`. */
  datatype User = User(chatId: int, lastDrinkDate: int, streak: int)

  type Store = map<int, User>

  /** The unique index on `chatId` holds (each record sits under its own
      chat id) and no streak is negative. */
  predicate WellFormed(users: Store) {
    forall id :: id in users ==> users[id].chatId == id && users[id].streak >= 0
  }

  datatype Button = Button(text: string, callbackData: string)

  /** An outgoing platform call. */
  datatype Outgoing =
    | SendMessage(chatId: int, text: string, inlineKeyboard: seq<seq<Button>>)
    | AnswerCallbackQuery(callbackQueryId: string)

  datatype Step = Step(users: Store, out: seq<Outgoing>)

  const StartCommand: string := "/start"
  const StartReply: string :=
    "Здравствуйте! Введите дату, когда вы пили алкоголь последний раз (в формате YYYY-MM-DD, например, 2025-08-12):"
  const DaysPrefix: string := "Дней без алкоголя: "
  const ResetReply: string := "Вы выпили вчера. Дней без алкоголя: 0"
  const NoPrefix: string := "Вы не выпивали вчера. Дней без алкоголя: "
  const PromptText: string := "Вы выпивали вчера?"
  const YesPayload: string := "yes"
  const NoPayload: string := "no"

  /** `1000 * 60 * 60 * 24` */
  const DayMillis: int := 1000 * 60 * 60 * 24

  /** `Math.floor((now - t) / DayMillis)`: whole days from `t` to `now`. */
  function DaysSince(now: int, t: int): (d: int)
    ensures d * DayMillis <= now - t < (d + 1) * DayMillis
    ensures d < 0 <==> t > now
  {
    (now - t) / DayMillis
  }

  /** The bounds pin the day count down: no other integer satisfies them. */
  lemma DaysSinceUnique(now: int, t: int, d: int)
    requires d * DayMillis <= now - t < (d + 1) * DayMillis
    ensures d == DaysSince(now, t)
  {
  }

  function DaysReply(days: int): string {
    DaysPrefix + Decimal.IntToString(days)
  }

  function NoReply(streak: int): string {
    NoPrefix + Decimal.IntToString(streak)
  }

  /** The keyboard of the daily prompt: a "Yes" row and a "No" row. */
  const PromptKeyboard: seq<seq<Button>> := [[Button("Yes", YesPayload)], [Button("No", NoPayload)]]

  lemma PromptKeyboardPayloads()
    ensures Payloads(PromptKeyboard) == [YesPayload, NoPayload]
  {
    var k := PromptKeyboard;
    assert k[1..][1..] == [];
    assert Payloads(k[1..]) == [NoPayload] + Payloads(k[1..][1..]);
    assert Payloads(k) == [YesPayload] + Payloads(k[1..]);
  }

  /** The payloads of a keyboard's buttons, row by row. */
  function Payloads(keyboard: seq<seq<Button>>): seq<string>
    decreases |keyboard|
  {
    if keyboard == [] then []
    else (seq(|keyboard[0]|, i requires 0 <= i < |keyboard[0]| => keyboard[0][i].callbackData)) + Payloads(keyboard[1..])
  }

  // ---------------------------------------------------------------------
  // The `message` handler.

  /** One text message `text` (absent for a message without text) from `chatId`. */
  function OnText(users: Store, chatId: int, text: Option<string>, now: int, parseDate: string -> int): Step {
    match text
    case None => Step(users, [])
    case Some(t) =>
      if t == StartCommand then
        Step(users, [SendMessage(chatId, StartReply, [])])
      else if DatePattern.Test(t) then
        var lastDrink := parseDate(t);
        Step(users[chatId := User(chatId, lastDrink, 0)],
             [SendMessage(chatId, DaysReply(DaysSince(now, lastDrink)), [])])
      else
        Step(users, [])
  }

  /** `/start` gives exactly the instruction text and changes nothing. */
  lemma StartRepliesWithInstructions(users: Store, chatId: int, now: int, parseDate: string -> int)
    ensures OnText(users, chatId, Some(StartCommand), now, parseDate)
         == Step(users, [SendMessage(chatId, StartReply, [])])
  {
  }

  /** A message without text, or a text that is neither `/start` nor
      date-shaped, gets no reply and changes nothing. */
  lemma OtherTextIgnored(users: Store, chatId: int, text: Option<string>, now: int, parseDate: string -> int)
    requires text.Some? ==> text.value != StartCommand && !DatePattern.DateShaped(text.value)
    ensures OnText(users, chatId, text, now, parseDate) == Step(users, [])
  {
    if text.Some? {
      DatePattern.TestIsDateShaped(text.value);
    }
  }

  /** A date-shaped text creates or overwrites the chat's record with the
      parsed date and streak 0, leaves every other chat's record alone,
      and replies with the whole-day count from that date to `now`. */
  lemma DateTextUpserts(users: Store, chatId: int, t: string, now: int, parseDate: string -> int)
    requires DatePattern.DateShaped(t)
    ensures var r := OnText(users, chatId, Some(t), now, parseDate);
      && r.users.Keys == users.Keys + {chatId}
      && r.users[chatId] == User(chatId, parseDate(t), 0)
      && (forall id :: id in users && id != chatId ==> r.users[id] == users[id])
      && exists d: int ::
           && d * DayMillis <= now - parseDate(t) < (d + 1) * DayMillis
           && r.out == [SendMessage(chatId, DaysReply(d), [])]
  {
    DatePattern.TestIsDateShaped(t);
    assert t != StartCommand;
    var d := DaysSince(now, parseDate(t));
    assert OnText(users, chatId, Some(t), now, parseDate).out == [SendMessage(chatId, DaysReply(d), [])];
  }

  /** Sending the same date a second time, whenever that happens, leaves
      the store as sending it once; at the same clock reading the reply is
      the same too. */
  lemma DateTextIdempotent(users: Store, chatId: int, t: string, now1: int, now2: int, parseDate: string -> int)
    requires DatePattern.DateShaped(t)
    ensures var once := OnText(users, chatId, Some(t), now1, parseDate);
      var twice := OnText(once.users, chatId, Some(t), now2, parseDate);
      && twice.users == once.users
      && (now1 == now2 ==> twice.out == once.out)
  {
    DatePattern.TestIsDateShaped(t);
    assert t != StartCommand;
  }

  // ---------------------------------------------------------------------
  // The `callback_query` handler.

  /** A button press with payload `data` on a message in chat `chatId`. */
  function OnCallback(users: Store, queryId: string, chatId: int, data: string, now: int): Step {
    if chatId !in users then
      Step(users, [])
    else
      var user := users[chatId];
      if data == YesPayload then
        Step(users[chatId := user.(streak := 0, lastDrinkDate := now)],
             [SendMessage(chatId, ResetReply, []), AnswerCallbackQuery(queryId)])
      else if data == NoPayload then
        var updated := user.(streak := user.streak + 1);
        Step(users[chatId := updated],
             [SendMessage(chatId, NoReply(updated.streak), []), AnswerCallbackQuery(queryId)])
      else
        Step(users, [AnswerCallbackQuery(queryId)])
  }

  /** A press from a chat without a record changes nothing, sends nothing
      and is not even acknowledged. */
  lemma UnknownChatCallbackIgnored(users: Store, queryId: string, chatId: int, data: string, now: int)
    requires chatId !in users
    ensures OnCallback(users, queryId, chatId, data, now) == Step(users, [])
  {
  }

  /** "yes" resets the streak and stamps `now`; "no" adds one to the
      streak and reports the new value; any other payload only
      acknowledges. Every other chat, and the set of chats, is untouched. */
  lemma KnownChatCallback(users: Store, queryId: string, chatId: int, data: string, now: int)
    requires chatId in users
    ensures var r := OnCallback(users, queryId, chatId, data, now);
      var before := users[chatId];
      && r.users.Keys == users.Keys
      && (forall id :: id in users && id != chatId ==> r.users[id] == users[id])
      && r.users[chatId].chatId == before.chatId
      && (data == YesPayload ==>
            && r.users[chatId].streak == 0 && r.users[chatId].lastDrinkDate == now
            && r.out == [SendMessage(chatId, ResetReply, []), AnswerCallbackQuery(queryId)])
      && (data == NoPayload ==>
            && r.users[chatId].streak == before.streak + 1
            && r.users[chatId].lastDrinkDate == before.lastDrinkDate
            && r.out == [SendMessage(chatId, NoReply(before.streak + 1), []), AnswerCallbackQuery(queryId)])
      && (data != YesPayload && data != NoPayload ==>
            && r.users == users
            && r.out == [AnswerCallbackQuery(queryId)])
  {
  }

  /** The number in a day-count or "no" reply determines the count. */
  lemma RepliesDetermineCount(a: int, b: int)
    ensures DaysReply(a) == DaysReply(b) <==> a == b
    ensures NoReply(a) == NoReply(b) <==> a == b
  {
    Decimal.IntToStringInjective(a, b);
    if DaysReply(a) == DaysReply(b) {
      assert Decimal.IntToString(a) == DaysReply(a)[|DaysPrefix|..];
      assert Decimal.IntToString(b) == DaysReply(b)[|DaysPrefix|..];
    }
    if NoReply(a) == NoReply(b) {
      assert Decimal.IntToString(a) == NoReply(a)[|NoPrefix|..];
      assert Decimal.IntToString(b) == NoReply(b)[|NoPrefix|..];
    }
  }

  // ---------------------------------------------------------------------
  // The daily reminder: one prompt per record `User.find()` returned.

  function DailyPrompt(chatId: int): Outgoing {
    SendMessage(chatId, PromptText, PromptKeyboard)
  }

  /** `users.map(u => bot.sendMessage(u.chatId, ...))` */
  function PromptList(docs: seq<User>): (out: seq<Outgoing>)
    ensures |out| == |docs|
    ensures forall i :: 0 <= i < |docs| ==>
      && out[i].SendMessage?
      && out[i].chatId == docs[i].chatId
      && out[i].text == PromptText
      && Payloads(out[i].inlineKeyboard) == [YesPayload, NoPayload]
    decreases |docs|
  {
    if docs == [] then []
    else
      PromptKeyboardPayloads();
      [DailyPrompt(docs[0].chatId)] + PromptList(docs[1..])
  }

  // ---------------------------------------------------------------------
  // The streak invariant.

  lemma OnTextKeepsWellFormed(users: Store, chatId: int, text: Option<string>, now: int, parseDate: string -> int)
    requires WellFormed(users)
    ensures WellFormed(OnText(users, chatId, text, now, parseDate).users)
    ensures users.Keys <= OnText(users, chatId, text, now, parseDate).users.Keys
  {
  }

  lemma OnCallbackKeepsWellFormed(users: Store, queryId: string, chatId: int, data: string, now: int)
    requires WellFormed(users)
    ensures WellFormed(OnCallback(users, queryId, chatId, data, now).users)
    ensures OnCallback(users, queryId, chatId, data, now).users.Keys == users.Keys
  {
  }

  /** The inbound events, each with the clock reading it is handled at. */
  datatype Event =
    | TextMessage(chatId: int, text: Option<string>, now: int)
    | CallbackQuery(queryId: string, chatId: int, data: string, now: int)
    | DailyTick

  function Apply(users: Store, e: Event, parseDate: string -> int): Store {
    match e
    case TextMessage(chatId, text, now) => OnText(users, chatId, text, now, parseDate).users
    case CallbackQuery(queryId, chatId, data, now) => OnCallback(users, queryId, chatId, data, now).users
    case DailyTick => users
  }

  /** The store after handling `events` one after another. */
  function Run(users: Store, events: seq<Event>, parseDate: string -> int): Store
    decreases |events|
  {
    if events == [] then users else Run(Apply(users, events[0], parseDate), events[1..], parseDate)
  }

  /** No sequence of events makes a streak negative or deletes a record. */
  lemma {:induction false} RunKeepsWellFormed(users: Store, events: seq<Event>, parseDate: string -> int)
    requires WellFormed(users)
    ensures WellFormed(Run(users, events, parseDate))
    ensures users.Keys <= Run(users, events, parseDate).Keys
    decreases |events|
  {
    if events != [] {
      match events[0] {
        case TextMessage(chatId, text, now) => OnTextKeepsWellFormed(users, chatId, text, now, parseDate);
        case CallbackQuery(queryId, chatId, data, now) => OnCallbackKeepsWellFormed(users, queryId, chatId, data, now);
        case DailyTick =>
      }
      RunKeepsWellFormed(Apply(users, events[0], parseDate), events[1..], parseDate);
    }
  }

  /** Events that reset `chatId`'s record: a date-shaped text from it, or
      a "yes" press in it. */
  predicate Resets(e: Event, chatId: int) {
    || (e.TextMessage? && e.chatId == chatId && e.text.Some? && DatePattern.DateShaped(e.text.value))
    || (e.CallbackQuery? && e.chatId == chatId && e.data == YesPayload)
  }

  /** The number of "no" presses in `chatId` among `events`. */
  function NoPresses(events: seq<Event>, chatId: int): nat
    decreases |events|
  {
    if events == [] then 0
    else
      (if events[0].CallbackQuery? && events[0].chatId == chatId && events[0].data == NoPayload then 1 else 0)
      + NoPresses(events[1..], chatId)
  }

  /** Between resets, a chat's streak is its streak at the start plus the
      number of "no" answers, and its last drink date does not move. */
  lemma {:induction false} StreakCountsNoPresses(users: Store, events: seq<Event>, chatId: int, parseDate: string -> int)
    requires chatId in users
    requires forall i :: 0 <= i < |events| ==> !Resets(events[i], chatId)
    ensures chatId in Run(users, events, parseDate)
    ensures Run(users, events, parseDate)[chatId].streak == users[chatId].streak + NoPresses(events, chatId)
    ensures Run(users, events, parseDate)[chatId].lastDrinkDate == users[chatId].lastDrinkDate
    decreases |events|
  {
    if events != [] {
      var e := events[0];
      var next := Apply(users, e, parseDate);
      match e {
        case TextMessage(id, text, now) =>
          if id == chatId && text.Some? {
            DatePattern.TestIsDateShaped(text.value);
          }
        case CallbackQuery(_, _, _, _) =>
        case DailyTick =>
      }
      assert chatId in next;
      assert next[chatId].streak == users[chatId].streak
        + (if e.CallbackQuery? && e.chatId == chatId && e.data == NoPayload then 1 else 0);
      assert next[chatId].lastDrinkDate == users[chatId].lastDrinkDate;
      StreakCountsNoPresses(next, events[1..], chatId, parseDate);
    }
  }
}
