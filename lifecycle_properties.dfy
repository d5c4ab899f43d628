/**
 * Properties of the pet lifecycle that relate several steps or hold of every
 * step: the consistency of death records, what a step may do to an existing
 * record, the adoption grace period, overlapping adoptions and the bound on
 * feedings within one calendar day.
 */
module LifecycleProperties {
  import opened Wrappers
  import opened Lifecycle

  /** Checking the status again, at the same or any later instant, changes nothing once the pet is dead. */
  lemma DeadStatusIsFinal(data: JDData, user: string, now: int, later: int)
    requires CheckStatus(data, user, now).status == Some(Dead)
    ensures var s := CheckStatus(data, user, now);
      && CheckStatus(s.data, user, later) == StatusResult(Some(Dead), s.data)
      && s.data[user].deathDate == if data[user].dead then data[user].deathDate else Some(now)
  {
  }

  /** The status check is idempotent at a fixed instant. */
  lemma CheckStatusIdempotent(data: JDData, user: string, now: int)
    ensures var s := CheckStatus(data, user, now);
      CheckStatus(s.data, user, now) == s
  {
  }

  /** Every step of the handler keeps `dead` and `deathDate` in agreement. */
  lemma StepPreservesWellFormed(data: JDData, testingMode: bool, msg: Message, now: int, dm: Dm)
    requires WellFormed(data)
    ensures WellFormed(OnMessageStep(data, testingMode, msg, now, dm))
  {
  }

  /**
   * What one message may do to a record that exists before and after it:
   * `dead` only goes from false to true, a dead record is frozen (so its death
   * date is never overwritten), name and creation time never change, and the
   * feeding count grows by at most one, only together with a new `lastFed`
   * on a later calendar date.
   */
  lemma StepKeepsRecordHistory(data: JDData, testingMode: bool, msg: Message, now: int, dm: Dm, v: string)
    requires v in data
    ensures var r := OnMessageStep(data, testingMode, msg, now, dm);
      v in r ==>
        && (data[v].dead ==> r[v] == data[v])
        && (r[v].dead || !data[v].dead)
        && r[v].name == data[v].name
        && r[v].creationTime == data[v].creationTime
        && data[v].totalFeedings <= r[v].totalFeedings <= data[v].totalFeedings + 1
        && (r[v].totalFeedings == data[v].totalFeedings + 1 ==>
              r[v].lastFed == now && !r[v].dead && !SameDate(data[v].lastFed, now))
        && (r[v].totalFeedings == data[v].totalFeedings ==> r[v].lastFed == data[v].lastFed)
  {
  }

  /** A feed on a pet that is dead, or that the status check kills, leaves its feeding history alone. */
  lemma FeedOnDeadPetKeepsHistory(data: JDData, user: string, now: int, dm: Dm)
    requires user in data
    requires data[user].dead || Starved(data[user], now)
    ensures var r := FeedStep(data, user, now, dm);
      && r[user].dead
      && r[user].lastFed == data[user].lastFed
      && r[user].totalFeedings == data[user].totalFeedings
  {
  }

  /** Two feeds on the same calendar date: the second one is ignored, so the count goes up once. */
  lemma FeedTwiceSameDay(data: JDData, user: string, t1: int, t2: int, dm1: Dm, dm2: Dm)
    requires user in data && !data[user].dead
    requires !SameDate(data[user].lastFed, t1) && !Starved(data[user], t1)
    requires SameDate(t1, t2)
    ensures var once := FeedStep(data, user, t1, dm1);
      && once[user].totalFeedings == data[user].totalFeedings + 1
      && FeedStep(once, user, t2, dm2) == once
  {
  }

  /**
   * A pet adopted at `t` and fed less than a day later is fed: the backdated
   * `lastFed` lies on an earlier date and only one whole day has passed.
   */
  lemma FeedWithinADayOfAdoption(data: JDData, user: string, t: int, t': int, h: Handshake, dm: Dm)
    requires user !in data
    requires t <= t' < t + DAY
    ensures var adopted := FeedStep(data, user, t, DmOpened(h));
      var fed := FeedStep(adopted, user, t', dm);
      && fed[user].totalFeedings == 1
      && fed[user].lastFed == t'
      && !fed[user].dead
  {
    var adopted := FeedStep(data, user, t, DmOpened(h));
    assert adopted[user].lastFed == t - DAY;
    assert DaysMissed(t - DAY, t') == 1;
    assert CalendarDate(t - DAY) < CalendarDate(t');
  }

  /**
   * The same backdating leaves only one day of grace: a pet adopted at `t`
   * whose first feed comes a day or more later dies on that feed, unfed.
   */
  lemma AdoptedPetStarvesAfterADay(data: JDData, user: string, t: int, t': int, h: Handshake, dm: Dm)
    requires user !in data
    requires t + DAY <= t'
    ensures var adopted := FeedStep(data, user, t, DmOpened(h));
      var fed := FeedStep(adopted, user, t', dm);
      && fed[user].dead
      && fed[user].deathDate == Some(t')
      && fed[user].totalFeedings == 0
  {
    var adopted := FeedStep(data, user, t, DmOpened(h));
    assert adopted[user].lastFed == t - DAY;
    assert DaysMissed(t - DAY, t') >= 2;
    assert CalendarDate(t - DAY) < CalendarDate(t');
  }

  /**
   * The handler awaits the naming conversation between its absence test and
   * its insert. Two handlers for the same new user can both pass the test on
   * `data` before either inserts. The first pet is then fed, and the second
   * insert overwrites it: the count falls back to zero, the name and creation
   * time are replaced, and a feed on the same date succeeds a second time.
   */
  lemma OverlappingAdoptions(data: JDData, user: string, t: int, t1: int, t2: int, t3: int, h1: Handshake, h2: Handshake)
    requires user !in data
    requires t <= t1 <= t2 <= t3 && SameDate(t, t3)
    ensures var first := Adopt(data, user, t, DmOpened(h1));
      var fed := FeedStep(first, user, t1, DmForbidden);
      var second := Adopt(fed, user, t2, DmOpened(h2));
      var fedAgain := FeedStep(second, user, t3, DmForbidden);
      && fed[user].totalFeedings == 1 && fed[user].lastFed == t1
      && second[user].totalFeedings == 0 && second[user].creationTime == t2
      && second[user].name == ChooseName(h2)
      && fedAgain[user].totalFeedings == 1 && fedAgain[user].lastFed == t3
      && SameDate(t1, t3)
  {
    assert CalendarDate(t) == CalendarDate(t1) == CalendarDate(t2) == CalendarDate(t3);
    var first := Adopt(data, user, t, DmOpened(h1));
    assert first[user] == NewJD(ChooseName(h1), t);
    assert !SameDate(first[user].lastFed, t1) && !Starved(first[user], t1);
    var fed := FeedStep(first, user, t1, DmForbidden);
    assert fed[user] == first[user].(lastFed := t1, totalFeedings := 1);
    var second := Adopt(fed, user, t2, DmOpened(h2));
    assert second[user] == NewJD(ChooseName(h2), t2);
    assert !SameDate(second[user].lastFed, t3) && !Starved(second[user], t3);
  }

  /** A message delivered to the handler at instant `now`, with how its adoption conversation would end. */
  datatype Event = Event(msg: Message, now: int, dm: Dm)

  /** The map after the handler ran on each event in turn. */
  function Run(data: JDData, testingMode: bool, events: seq<Event>): JDData
    decreases |events|
  {
    if events == [] then data
    else
      var e := events[0];
      Run(OnMessageStep(data, testingMode, e.msg, e.now, e.dm), testingMode, events[1..])
  }

  /** The feeding count of `user`, zero when the user has no pet. */
  function Feedings(data: JDData, user: string): nat
  {
    if user in data then data[user].totalFeedings else 0
  }

  /**
   * Within calendar day `d`, starting from `base` feedings: a record last fed
   * on `d` has at most one feeding more, any other record none more.
   */
  ghost predicate WithinDayBudget(data: JDData, user: string, d: int, base: nat)
  {
    user in data ==>
      if CalendarDate(data[user].lastFed) == d
      then data[user].totalFeedings <= base + 1
      else data[user].totalFeedings <= base
  }

  lemma StepKeepsDayBudget(data: JDData, testingMode: bool, e: Event, user: string, d: int, base: nat)
    requires WithinDayBudget(data, user, d, base)
    requires CalendarDate(e.now) == d
    ensures WithinDayBudget(OnMessageStep(data, testingMode, e.msg, e.now, e.dm), user, d, base)
  {
    assert CalendarDate(e.now - DAY) == d - 1;
  }

  lemma {:induction false} RunKeepsDayBudget(data: JDData, testingMode: bool, events: seq<Event>, user: string, d: int, base: nat)
    requires WithinDayBudget(data, user, d, base)
    requires forall i :: 0 <= i < |events| ==> CalendarDate(events[i].now) == d
    ensures WithinDayBudget(Run(data, testingMode, events), user, d, base)
    decreases |events|
  {
    if events != [] {
      var e := events[0];
      StepKeepsDayBudget(data, testingMode, e, user, d, base);
      RunKeepsDayBudget(OnMessageStep(data, testingMode, e.msg, e.now, e.dm), testingMode, events[1..], user, d, base);
    }
  }

  /**
   * A user's feeding count rises by at most one within a calendar day: whatever
   * messages arrive during the day, in any order and including adoptions and
   * clears, handled one after another, the count ends at most one above where
   * it started.
   */
  lemma AtMostOneFeedingPerDay(data: JDData, testingMode: bool, events: seq<Event>, user: string, d: int)
    requires forall i :: 0 <= i < |events| ==> CalendarDate(events[i].now) == d
    ensures Feedings(Run(data, testingMode, events), user) <= Feedings(data, user) + 1
  {
    RunKeepsDayBudget(data, testingMode, events, user, d, Feedings(data, user));
  }
}
