/**
 * The pet ("JD") lifecycle of the feed bot, as pure functions over the
 * `jd_data` map: the status check, the feed branch of the message handler,
 * the adoption name choice, the message filter and the `!cleardata` reset.
 * An instant is an integer number of seconds of local time, supplied by the
 * caller instead of being read from the clock.
 */
module Lifecycle {
  import opened Wrappers
  import opened Text

  const FEED_CHANNEL_ID: int := 1461853646395408407
  const EMOTE: string := ":feed_jd:"
  const DEFAULT_NAME: string := "JD"
  const MAX_DAYS_MISSED: int := 2
  /** The only user allowed to issue test commands. */
  const ADMIN_ID: nat := 299680580591943690
  const CLEAR_COMMAND: string := "!cleardata"
  /** Seconds in one day: `timedelta(days=1)`. */
  const DAY: int := 86400

  /** One pet record; `deathDate` is the optional `death_date` key. */
  datatype JD = JD(
    name: string,
    creationTime: int,
    lastFed: int,
    totalFeedings: nat,
    dead: bool,
    deathDate: Option<int>)

  /** `jd_data`: user id, rendered with `str`, to pet record. */
  type JDData = map<string, JD>

  datatype Status = Alive | Dead

  /** A message as the handler sees it; `fromBot` is `message.author == bot.user`. */
  datatype Message = Message(channelId: int, authorId: nat, fromBot: bool, content: string)

  /** How the naming conversation in direct messages ended. */
  datatype Handshake =
    | NameTimedOut
    | ReactionTimedOut(reply: string)
    | Reacted(reply: string, confirmed: bool)

  /** Whether the bot could open the direct-message conversation at all. */
  datatype Dm = DmForbidden | DmOpened(handshake: Handshake)

  /** The map key of a user: `str(user_id)`. */
  function UserKey(userId: nat): (key: string)
    ensures DecimalValue(key) == userId
  {
    DecimalRoundTrip(userId);
    DecimalString(userId)
  }

  /** Whole days from `lastFed` to `now`, rounded down: `(now - last_fed).days`. */
  function DaysMissed(lastFed: int, now: int): (days: int)
    ensures DAY * days <= now - lastFed < DAY * (days + 1)
  {
    (now - lastFed) / DAY
  }

  /** The calendar date of an instant, as a day number: `t.date()`. */
  function CalendarDate(t: int): (d: int)
    ensures DAY * d <= t < DAY * (d + 1)
  {
    t / DAY
  }

  /** Instant `t` lies within the 24 hours of day number `d`. */
  ghost predicate InDay(t: int, d: int)
  {
    DAY * d <= t < DAY * (d + 1)
  }

  /** `a.date() == b.date()`: both instants fall within one day. */
  function SameDate(a: int, b: int): (r: bool)
    ensures r <==> exists d :: InDay(a, d) && InDay(b, d)
  {
    assert InDay(a, CalendarDate(a));
    CalendarDate(a) == CalendarDate(b)
  }

  /** The pet has gone unfed for at least `MAX_DAYS_MISSED` whole days: at least 48 hours. */
  function Starved(jd: JD, now: int): (r: bool)
    ensures r <==> now - jd.lastFed >= MAX_DAYS_MISSED * DAY
  {
    DaysMissed(jd.lastFed, now) >= MAX_DAYS_MISSED
  }

  /** Every record has a death date exactly when it is dead. */
  ghost predicate WellFormed(data: JDData)
  {
    forall u :: u in data ==> (data[u].dead <==> data[u].deathDate.Some?)
  }

  /** What `check_jd_status` returns, and the map after it ran. */
  datatype StatusResult = StatusResult(status: Option<Status>, data: JDData)

  /**
   * `check_jd_status`: no status for a user without a pet; a dead pet stays
   * dead untouched; a live pet starved for `MAX_DAYS_MISSED` days dies now.
   */
  function CheckStatus(data: JDData, user: string, now: int): (r: StatusResult)
    ensures r.status == None <==> user !in data
    ensures r.status == Some(Dead) <==> user in data && (data[user].dead || Starved(data[user], now))
    ensures r.data.Keys == data.Keys
    ensures forall v :: v in data && v != user ==> r.data[v] == data[v]
    ensures r.status != Some(Dead) ==> r.data == data
    ensures user in data && data[user].dead ==> r.data == data
    ensures user in data && !data[user].dead && Starved(data[user], now) ==>
      r.data[user] == data[user].(dead := true, deathDate := Some(now))
  {
    if user !in data then
      StatusResult(None, data)
    else
      var jd := data[user];
      if jd.dead then
        StatusResult(Some(Dead), data)
      else if DaysMissed(jd.lastFed, now) >= MAX_DAYS_MISSED then
        StatusResult(Some(Dead), data[user := jd.(dead := true, deathDate := Some(now))])
      else
        StatusResult(Some(Alive), data)
  }

  /**
   * The name an adopted pet gets: the stripped reply when it was confirmed
   * and is not blank, `DEFAULT_NAME` otherwise (rejection or either timeout).
   */
  function ChooseName(h: Handshake): (name: string)
    ensures name != [] && NoEdgeSpace(name)
    ensures h.Reacted? && h.confirmed && !AllSpace(h.reply) ==> name == Strip(h.reply) && IsStripOf(h.reply, name)
    ensures !(h.Reacted? && h.confirmed && !AllSpace(h.reply)) ==> name == DEFAULT_NAME
  {
    match h
    case NameTimedOut => DEFAULT_NAME
    case ReactionTimedOut(_) => DEFAULT_NAME
    case Reacted(reply, confirmed) =>
      var jdName := if confirmed then Strip(reply) else DEFAULT_NAME;
      if jdName == [] then DEFAULT_NAME else jdName
  }

  /** The record created on adoption, fed "yesterday" so that it can be fed at once. */
  function NewJD(name: string, now: int): (jd: JD)
    ensures jd.name == name && jd.creationTime == now
    ensures jd.totalFeedings == 0 && !jd.dead && jd.deathDate == None
    ensures DaysMissed(jd.lastFed, now) == 1 && !Starved(jd, now)
    ensures !SameDate(jd.lastFed, now) && CalendarDate(jd.lastFed) == CalendarDate(now) - 1
  {
    JD(name, now, now - DAY, 0, false, None)
  }

  /**
   * The end of the adoption branch: once the conversation is over, the new
   * record is stored under `user` without looking at the map again. The
   * handler enters this branch only when `user` had no record, but the map
   * may have changed during the conversation (see `OverlappingAdoptions`).
   */
  function Adopt(data: JDData, user: string, now: int, dm: Dm): (r: JDData)
    ensures forall v :: v in data && v != user ==> v in r && r[v] == data[v]
    ensures user !in data ==> forall v :: v in data ==> v in r && r[v] == data[v]
    ensures dm.DmForbidden? ==> r == data
    ensures r.Keys == if dm.DmForbidden? then data.Keys else data.Keys + {user}
    ensures dm.DmOpened? ==>
      && r[user].name == ChooseName(dm.handshake)
      && r[user].creationTime == now
      && r[user].lastFed == now - DAY
      && r[user].totalFeedings == 0
      && !r[user].dead
      && r[user].deathDate == None
  {
    match dm
    case DmForbidden => data
    case DmOpened(h) => data[user := NewJD(ChooseName(h), now)]
  }

  /**
   * The feed branch of the handler for the author `user`: ignored if the pet
   * was last fed today, adoption if there is no pet, otherwise the status
   * check and, for a live pet, one more feeding.
   */
  function FeedStep(data: JDData, user: string, now: int, dm: Dm): (r: JDData)
    ensures forall v :: v in data && v != user ==> v in r && r[v] == data[v]
    ensures user in data ==> r.Keys == data.Keys
    ensures user !in data ==> r == Adopt(data, user, now, dm)
    ensures user in data && SameDate(data[user].lastFed, now) ==> r == data
    ensures user in data && data[user].dead ==> r == data
    ensures user in data && !SameDate(data[user].lastFed, now) && !data[user].dead ==>
      r[user] == if Starved(data[user], now)
                 then data[user].(dead := true, deathDate := Some(now))
                 else data[user].(lastFed := now, totalFeedings := data[user].totalFeedings + 1)
  {
    if user in data && SameDate(data[user].lastFed, now) then
      data
    else if user !in data then
      Adopt(data, user, now, dm)
    else
      var s := CheckStatus(data, user, now);
      if s.status == Some(Alive) then
        var jd := s.data[user];
        s.data[user := jd.(lastFed := now, totalFeedings := jd.totalFeedings + 1)]
      else
        s.data
  }

  /** The handler's filter: feed channel, not the bot itself, and the emote somewhere in the text. */
  function IsFeedMessage(msg: Message): (r: bool)
    ensures r <==> msg.channelId == FEED_CHANNEL_ID && !msg.fromBot && exists i: nat :: OccursAt(msg.content, EMOTE, i)
  {
    msg.channelId == FEED_CHANNEL_ID && !msg.fromBot && Contains(msg.content, EMOTE)
  }

  /** `!cleardata`: honoured only in testing mode and only from the admin, in any channel. */
  function IsClearCommand(testingMode: bool, msg: Message): (r: bool)
    ensures r <==> testingMode && msg.authorId == ADMIN_ID
                   && |CLEAR_COMMAND| <= |msg.content| && msg.content[..|CLEAR_COMMAND|] == CLEAR_COMMAND
  {
    testingMode && msg.authorId == ADMIN_ID && StartsWith(msg.content, CLEAR_COMMAND)
  }

  /** `on_message`: the map after one message arrived at instant `now`. */
  function OnMessageStep(data: JDData, testingMode: bool, msg: Message, now: int, dm: Dm): (r: JDData)
    ensures IsClearCommand(testingMode, msg) ==> r == map[]
    ensures !IsClearCommand(testingMode, msg) ==>
      forall v :: v in data && v != UserKey(msg.authorId) ==> v in r && r[v] == data[v]
    ensures !IsClearCommand(testingMode, msg) && (msg.channelId != FEED_CHANNEL_ID || msg.fromBot) ==> r == data
    ensures !IsClearCommand(testingMode, msg) && !(exists i: nat :: OccursAt(msg.content, EMOTE, i)) ==> r == data
    ensures !IsClearCommand(testingMode, msg) && IsFeedMessage(msg) ==>
      r == FeedStep(data, UserKey(msg.authorId), now, dm)
  {
    if IsClearCommand(testingMode, msg) then
      map[]
    else if IsFeedMessage(msg) then
      FeedStep(data, UserKey(msg.authorId), now, dm)
    else
      data
  }
}
