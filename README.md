# Feed JD: a verified model of the pet lifecycle

The Discord bot in `FeedJDBot.py` keeps one virtual pet, a "JD", for each user.
A user feeds their JD by posting the `:feed_jd:` emote in the feed channel. The
first such post starts an adoption, and the user names the pet in a private
conversation. Later posts feed the pet, except that a post on a date the pet was
already fed is ignored. A pet
that goes `MAX_DAYS_MISSED` (2) whole days unfed dies the next time its status
is checked. It stays dead from then on. In testing mode the admin can wipe
every record with `!cleardata`.

The project models that lifecycle over the bot's `jd_data` map.

- `wrappers.dfy` (`Wrappers`): `Option`, for Python's `None`-or-value.
- `text.dfy` (`Text`): the string operations the handler uses:
  - `str.strip()`, with Python's `str.isspace()` set of whitespace;
  - the substring test `EMOTE in content`;
  - `startswith`;
  - `str(user_id)`, which renders the map keys.
- `lifecycle.dfy` (`Lifecycle`): the constants, the pet record `JD`, and pure
  functions for each part of the handler: the status check, the name choice,
  adoption, the feed branch, the message filter and one whole `on_message`
  step.
- `lifecycle_properties.dfy` (`LifecycleProperties`): lemmas that span several
  steps or hold for every step. One of them folds the handler over a sequence of
  messages to show that a user's feeding count rises by at most one within a
  calendar day. Another shows what happens when two adoptions for the same
  user overlap.
- `bot.dfy` (`Bot`): the `JDBot` class. Like the source, it holds `jdData` and
  updates it in place, and it saves after every change. Each method is proved
  to produce exactly the map that the pure step function gives. The field
  `persisted` stands for the data file, and `Valid()` says the file holds what
  is in memory.

Time is an integer number of seconds of local time, passed in as `now`. One
day is `DAY = 86400`. A calendar date is `t / DAY`, and `(now - last_fed).days`
is `(now - last_fed) / DAY`. For a positive divisor Dafny's division rounds
down, as Python's `timedelta.days` does.

A few facts about the bot shape the model:

- A timeout in either wait, or a rejected name, still adopts a pet named
  `DEFAULT_NAME`. The bot never asks for the name again.
- `check_jd_status` is the only place where a pet dies. The bot has no daily
  sweep and no death announcements.
- `!cleardata` is the bot's only admin command.
- Each handler awaits the naming conversation between its test that the user
  has no pet (FeedJDBot.py:119) and its insert (FeedJDBot.py:149), and the
  insert does not test again. Two overlapping adoptions for one user therefore
  overwrite a record. `LifecycleProperties.OverlappingAdoptions` shows that
  the overwrite lowers the feeding count and allows a second feed on the same
  date.

`TESTING_MODE` is the constant `False` in the file. The model takes it as the
bot's configuration (`JDBot.testingMode`), so both settings are covered.

## Model

| member | source | states |
|---|---|---|
| `Text.Strip` | FeedJDBot.py:130 | the result is `s` with exactly its leading and trailing whitespace removed (`IsStripOf`), and it is empty exactly when `s` is all whitespace |
| `Text.StripOfUnique` | FeedJDBot.py:139 | a string has only one stripped form, so `Strip`'s contract pins the name down completely |
| `Text.StripIdempotent` | FeedJDBot.py:139 | stripping a stripped name changes nothing |
| `Text.LeadingSpaces` | FeedJDBot.py:139 | counts exactly the run of whitespace at the front of the reply |
| `Text.TrailingSpaces` | FeedJDBot.py:139 | counts exactly the run of whitespace at the end of the reply |
| `Text.Contains` | FeedJDBot.py:104 | `EMOTE in content` holds exactly when the emote occurs at some index of the content |
| `Text.DecimalString` | FeedJDBot.py:52 | `str(user_id)` is a non-empty run of digits without a leading zero |
| `Text.DecimalRoundTrip` | FeedJDBot.py:107 | reading a rendered user id back gives the id |
| `Text.DecimalStringInjective` | FeedJDBot.py:107 | distinct user ids get distinct map keys, so users never share a record |
| `Lifecycle.DaysMissed` | FeedJDBot.py:62 | the day gap is the number of whole days in `now - last_fed`, rounded down |
| `Lifecycle.CalendarDate` | FeedJDBot.py:115 | the date is the day whose 24 hours contain the instant |
| `Lifecycle.CheckStatus` | FeedJDBot.py:50-73 | returns no status exactly for a user with no record; returns dead exactly when the pet is already dead or has gone unfed for `MAX_DAYS_MISSED` whole days; a pet that dies now gets `dead` and `death_date = now`; every other outcome changes nothing, so a death date is never overwritten; other users are untouched |
| `Lifecycle.ChooseName` | FeedJDBot.py:128-147 | the name is the stripped reply when it was confirmed and is not blank; otherwise, including rejection and both timeouts, it is `DEFAULT_NAME`; either way it is non-empty with no whitespace at its ends |
| `Lifecycle.Adopt` | FeedJDBot.py:119-163 | the insert stores a new record under the user whatever the map holds there, and leaves every other user's record alone; for a user with no record nothing is overwritten; the record has the chosen name, `creation_time = now`, `last_fed = now - 1 day`, no feedings, is alive and has no death date; if the DM conversation is forbidden, nothing changes |
| `Lifecycle.NewJD` | FeedJDBot.py:149-155 | a new record has no feedings, is alive without a death date, and its `last_fed` lies on the previous date exactly one whole day back, so it can be fed at once and is not starved |
| `Lifecycle.FeedStep` | FeedJDBot.py:107-178 | a feed on a pet last fed on today's date changes nothing; with no record it adopts; a dead pet is left alone; a starved pet dies; a live pet gets `last_fed = now` and exactly one more feeding; other users' records never change |
| `Lifecycle.OnMessageStep` | FeedJDBot.py:84-107 | `!cleardata` from the admin in testing mode empties the map; a message outside the feed channel, sent by the bot, or without the emote changes nothing; any other message runs the feed branch for its author; no message other than a clear changes another user's record |
| `Lifecycle.IsFeedMessage` | FeedJDBot.py:100-104 | a message is handled as a feed exactly when it is in the feed channel, not from the bot itself, and contains the emote at some index |
| `Lifecycle.IsClearCommand` | FeedJDBot.py:86-92 | a message is the clear command exactly when testing mode is on, the author is the admin, and the text begins with `!cleardata`, in any channel |
| `Lifecycle.SameDate` | FeedJDBot.py:115 | two instants have the same date exactly when one day's 24 hours contain both |
| `Lifecycle.Starved` | FeedJDBot.py:62-64 | the whole-day gap reaches `MAX_DAYS_MISSED` exactly when at least 48 hours have passed since `last_fed` |
| `Lifecycle.UserKey` | FeedJDBot.py:52 | the map key of a user reads back as that user's id, so distinct users get distinct keys |
| `Text.StartsWith` | FeedJDBot.py:92 | `startswith` holds exactly when the prefix fits and the text's first characters equal it |
| `LifecycleProperties.DeadStatusIsFinal` | FeedJDBot.py:53-70 | once the status is dead, any later check returns dead without touching the map, and the death date is the one set when the pet died |
| `LifecycleProperties.CheckStatusIdempotent` | FeedJDBot.py:50-73 | checking twice at one instant is the same as checking once |
| `LifecycleProperties.StepPreservesWellFormed` | FeedJDBot.py:64-66 | every message keeps "`death_date` present exactly when `dead`" |
| `LifecycleProperties.StepKeepsRecordHistory` | FeedJDBot.py:104-178 | for a record that survives a message: `dead` never goes back to false, a dead record is frozen, the name and creation time stay, and `total_feedings` never decreases; it rises by at most one, and only together with `last_fed = now` on a new date |
| `LifecycleProperties.FeedOnDeadPetKeepsHistory` | FeedJDBot.py:164-168 | a feed on a dead pet, or on one the status check kills, leaves `last_fed` and `total_feedings` alone |
| `LifecycleProperties.FeedTwiceSameDay` | FeedJDBot.py:111-116 | the first feed of the day counts once, and a second feed on the same date is ignored |
| `LifecycleProperties.FeedWithinADayOfAdoption` | FeedJDBot.py:149-155 | a pet fed less than a day after adoption is fed: one feeding, `last_fed` is that instant, still alive |
| `LifecycleProperties.AdoptedPetStarvesAfterADay` | FeedJDBot.py:152 | because of the one-day backdating, a pet whose first feed comes a day or more after adoption dies on that feed with no feedings |
| `LifecycleProperties.OverlappingAdoptions` | FeedJDBot.py:119-155 | when two adoptions for a new user both pass the absence test before either inserts, the second insert overwrites a fed record: the count drops from one to zero, the name and creation time are replaced, and a second feed on the same date succeeds |
| `LifecycleProperties.StepKeepsDayBudget` | FeedJDBot.py:111-116 | one message on day `d` keeps the day's feeding budget for a user |
| `LifecycleProperties.RunKeepsDayBudget` | FeedJDBot.py:111-116 | a sequence of messages on day `d` keeps the day's feeding budget for a user |
| `LifecycleProperties.AtMostOneFeedingPerDay` | FeedJDBot.py:109-116 | any messages in one calendar day, including adoptions and clears, handled one after another, raise a user's feeding count by at most one |
| `Bot.JDBot.constructor` | FeedJDBot.py:23-28 | the bot starts with the loaded map, and the file holds it |
| `Bot.JDBot.SaveData` | FeedJDBot.py:45-48 | after a save the file holds the map in memory |
| `Bot.JDBot.CheckJdStatus` | FeedJDBot.py:50-73 | the in-place check returns the status and leaves the map that `CheckStatus` gives; it saves when it kills a pet and keeps the map well formed |
| `Bot.JDBot.ClearData` | FeedJDBot.py:92-94 | the map becomes empty and is saved |
| `Bot.JDBot.Feed` | FeedJDBot.py:107-178 | the in-place feed branch, which calls the status check as the source does, leaves exactly the map that `FeedStep` gives and saves every change |
| `Bot.JDBot.OnMessage` | FeedJDBot.py:84-104 | the in-place handler leaves exactly the map that `OnMessageStep` gives; every change is saved and the map stays well formed |

## Left out

- The Discord client is out of the model: events, intents, channels, reactions, replies, the adoption announcement and `bot.run`. These are network I/O in a foreign library.
- The two 60-second `wait_for` calls are out of the model. Only how the conversation ended is an input (`Handshake`). `Dm` also says whether the conversation failed with `discord.Forbidden`, which ends without an adoption. That can happen when the DM channel is opened or when any message or reaction is sent to it (FeedJDBot.py:122-133).
- `load_data` and the JSON file format are out of the model. The constructor takes the loaded map as a parameter, and `save_data` is modelled only as the `persisted` copy of the map.
- Records that lack expected keys in a loaded file are out of the model. Every record has all fields, so the `'last_fed' in jd` test is always true.
- The clock is not read. Each message gets one instant `now`, although the handler calls `datetime.now()` several times.
- Timestamps have whole-second resolution, and ISO-8601 strings become integers.
- Local-time effects (daylight saving, time-zone changes) are out of the model.
- `print` logging in testing mode is out of the model.
- `Lifecycle.WellFormed` is not part of `JDBot.Valid()`. A hand-edited data file could break it. The bot's methods are proved to preserve it rather than to establish it.
- `Lifecycle.Adopt`, `Lifecycle.FeedStep`, `Lifecycle.OnMessageStep` and `Bot.JDBot.OnMessage` run each message's handler from start to finish, with no other handler in between. In the bot every handler is its own task, and the adoption branch awaits at FeedJDBot.py:122-137. Overlapping handlers are modelled only by `LifecycleProperties.OverlappingAdoptions`.
- `LifecycleProperties.StepKeepsRecordHistory` and `LifecycleProperties.AtMostOneFeedingPerDay` hold for handlers that run one after another. With overlapping adoptions the bot can overwrite a record, lower its `total_feedings` and feed twice on one date.
- The insert at FeedJDBot.py:149 is saved only at FeedJDBot.py:158, after the awaited announcement at FeedJDBot.py:157. The model saves right after the insert. A failure or another handler in between is not modelled.
- `Text.IsSpace` follows the character set of Python's `str.isspace()` as a fixed list.
