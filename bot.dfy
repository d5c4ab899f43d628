/**
 * The bot object: it owns `jd_data` and updates it in place from the message
 * handler, saving the whole map after every change. `persisted` stands for
 * the content of the data file as the last save left it.
 */
module Bot {
  import opened Wrappers
  import opened Text
  import opened Lifecycle
  import opened LifecycleProperties

  class JDBot {
    var jdData: JDData
    var persisted: JDData
    /** `TESTING_MODE`: whether the admin's test commands are honoured. */
    const testingMode: bool

    /** Nothing acknowledged is lost: the data file holds the map in memory. */
    ghost predicate Valid()
      reads this
    {
      persisted == jdData
    }

    /** Start from the map that loading the data file produced. */
    constructor (loaded: JDData, testingMode: bool)
      ensures Valid()
      ensures jdData == loaded && this.testingMode == testingMode
    {
      jdData := loaded;
      persisted := loaded;
      this.testingMode := testingMode;
    }

    /** `save_data`: write the whole map to the data file. */
    method SaveData()
      modifies this`persisted
      ensures Valid()
    {
      persisted := jdData;
    }

    /** `check_jd_status`, killing a starved pet in place and saving. */
    method CheckJdStatus(userId: nat, now: int) returns (status: Option<Status>)
      requires Valid()
      modifies this
      ensures Valid()
      ensures StatusResult(status, jdData) == CheckStatus(old(jdData), UserKey(userId), now)
      ensures WellFormed(old(jdData)) ==> WellFormed(jdData)
    {
      var user := UserKey(userId);
      if user !in jdData {
        return None;
      }
      var jd := jdData[user];
      if jd.dead {
        return Some(Dead);
      }
      if DaysMissed(jd.lastFed, now) >= MAX_DAYS_MISSED {
        jdData := jdData[user := jd.(dead := true, deathDate := Some(now))];
        SaveData();
        return Some(Dead);
      }
      return Some(Alive);
    }

    /** `!cleardata`: replace the map by an empty one and save. */
    method ClearData()
      modifies this
      ensures Valid()
      ensures jdData == map[]
    {
      jdData := map[];
      SaveData();
    }

    /** The feed branch of `on_message` for the author `userId`. */
    method Feed(userId: nat, now: int, dm: Dm)
      requires Valid()
      modifies this
      ensures Valid()
      ensures jdData == FeedStep(old(jdData), UserKey(userId), now, dm)
    {
      var user := UserKey(userId);
      if user in jdData && SameDate(jdData[user].lastFed, now) {
        return;
      }
      if user !in jdData {
        if dm.DmOpened? {
          var name := ChooseName(dm.handshake);
          jdData := jdData[user := NewJD(name, now)];
          SaveData();
        }
        return;
      }
      var jd := jdData[user];
      var status := CheckJdStatus(userId, now);
      if status == Some(Alive) {
        jdData := jdData[user := jd.(lastFed := now, totalFeedings := jd.totalFeedings + 1)];
        SaveData();
      }
    }

    /** `on_message` for a message that arrives at `now`; `dm` is how a naming conversation would end. */
    method OnMessage(msg: Message, now: int, dm: Dm)
      requires Valid()
      modifies this
      ensures Valid()
      ensures jdData == OnMessageStep(old(jdData), testingMode, msg, now, dm)
      ensures WellFormed(old(jdData)) ==> WellFormed(jdData)
    {
      ghost var before := jdData;
      if WellFormed(before) {
        StepPreservesWellFormed(before, testingMode, msg, now, dm);
      }
      if IsClearCommand(testingMode, msg) {
        ClearData();
        return;
      }
      if msg.channelId != FEED_CHANNEL_ID || msg.fromBot {
        return;
      }
      if Contains(msg.content, EMOTE) {
        Feed(msg.authorId, now, dm);
      }
    }
  }
}
