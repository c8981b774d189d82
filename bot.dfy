/**
  The bot process: the `User` collection as a mutable map, and the three
  handlers written the way the program runs them (fetch the record,
  change its fields, save it back). Each handler is proved to produce the
  store and the outgoing calls that the pure transitions of `Streak`
  describe, so every lemma proved there holds of these methods.
*/
module Bot {
  import DatePattern
  import opened Streak

  class SobrietyBot {
    /** The `User` collection, keyed by `chatId`. */
    var users: Store

    ghost predicate Valid()
      reads this
    {
      WellFormed(users)
    }

    /** An empty collection. */
    constructor ()
      ensures Valid() && users == map[]
    {
      users := map[];
    }

    /** `bot.on("message", ...)` */
    method OnMessage(chatId: int, text: Option<string>, now: int, parseDate: string -> int)
      returns (out: seq<Outgoing>)
      requires Valid()
      modifies this
      ensures Valid()
      ensures Step(users, out) == OnText(old(users), chatId, text, now, parseDate)
    {
      if text == Some(StartCommand) {
        out := [SendMessage(chatId, StartReply, [])];
        return;
      }
      out := [];
      if text.Some? && DatePattern.Test(text.value) {
        var lastDrink := parseDate(text.value);
        var user: User;
        if chatId !in users {
          user := User(chatId, lastDrink, 0);
        } else {
          user := users[chatId];
          user := user.(lastDrinkDate := lastDrink);
          user := user.(streak := 0);
        }
        users := users[chatId := user];
        var diffDays := (now - lastDrink) / DayMillis;
        out := [SendMessage(chatId, DaysReply(diffDays), [])];
      }
    }

    /** `bot.on("callback_query", ...)` */
    method OnCallbackQuery(queryId: string, chatId: int, data: string, now: int)
      returns (out: seq<Outgoing>)
      requires Valid()
      modifies this
      ensures Valid()
      ensures Step(users, out) == OnCallback(old(users), queryId, chatId, data, now)
    {
      out := [];
      if chatId !in users {
        return;
      }
      var user := users[chatId];
      if data == YesPayload {
        user := user.(streak := 0);
        user := user.(lastDrinkDate := now);
        users := users[chatId := user];
        out := out + [SendMessage(chatId, ResetReply, [])];
      } else if data == NoPayload {
        user := user.(streak := user.streak + 1);
        users := users[chatId := user];
        out := out + [SendMessage(chatId, NoReply(user.streak), [])];
      }
      out := out + [AnswerCallbackQuery(queryId)];
    }

    /** `User.find()`: every stored record, once each, in some order. */
    method FindAll() returns (docs: seq<User>)
      requires Valid()
      ensures |docs| == |users|
      ensures forall i :: 0 <= i < |docs| ==> docs[i].chatId in users && users[docs[i].chatId] == docs[i]
      ensures forall i, j :: 0 <= i < j < |docs| ==> docs[i].chatId != docs[j].chatId
      ensures forall id :: id in users ==> exists i :: 0 <= i < |docs| && docs[i].chatId == id
    {
      docs := [];
      ghost var ids: seq<int> := [];
      var rest := users.Keys;
      while rest != {}
        invariant rest <= users.Keys
        invariant |ids| == |docs| && |docs| + |rest| == |users|
        invariant forall i :: 0 <= i < |ids| ==> ids[i] in users && docs[i] == users[ids[i]] && ids[i] !in rest
        invariant forall i, j :: 0 <= i < j < |ids| ==> ids[i] != ids[j]
        invariant forall id :: id in users && id !in rest ==> id in ids
        decreases rest
      {
        // any document may come next: `find()` promises no order
        assert exists k :: k in rest by {
          if forall k :: k !in rest { assert false; }
        }
        var id :| id in rest;
        docs := docs + [users[id]];
        ids := ids + [id];
        rest := rest - {id};
      }
      assert forall i :: 0 <= i < |docs| ==> docs[i].chatId == ids[i];
    }

    /** The body of the daily cron job: one yes/no prompt per stored record,
        each chat exactly once. */
    method DailyReminder() returns (out: seq<Outgoing>)
      requires Valid()
      ensures |out| == |users|
      ensures forall i :: 0 <= i < |out| ==>
        && out[i].SendMessage?
        && out[i].chatId in users
        && out[i].text == PromptText
        && Payloads(out[i].inlineKeyboard) == [YesPayload, NoPayload]
      ensures forall i, j :: 0 <= i < j < |out| ==> out[i].chatId != out[j].chatId
      ensures forall id :: id in users ==> exists i :: 0 <= i < |out| && out[i].chatId == id
    {
      var docs := FindAll();
      out := PromptList(docs);
    }
  }
}
