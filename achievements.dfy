/** The achievements hook: the user's achievements, newest first, kept up to
    date by a full fetch and by the insert notifications of the change feed. */
module Achievements {
  import opened Common
  import opened Seqs

  datatype Achievement = Achievement(
    id: RowId,
    userId: UserId,
    achievementType: string,
    name: string,
    description: Option<string>,
    unlockedAt: Timestamp)

  const LoadFailed := Error("Failed to load achievements")

  /** The select of `fetchAchievements`: the user's rows, most recently
      unlocked first. */
  function SelectAchievements(table: seq<Achievement>, userId: UserId): (r: seq<Achievement>)
    ensures forall a :: multiset(r)[a] == (if a.userId == userId then multiset(table)[a] else 0)
    ensures forall i, j :: 0 <= i < j < |r| ==> r[i].unlockedAt >= r[j].unlockedAt
  {
    var sorted := SortBy(Filter(table, (a: Achievement) => a.userId == userId), (a: Achievement) => -a.unlockedAt);
    assert forall i, j :: 0 <= i < j < |sorted| ==> -sorted[i].unlockedAt <= -sorted[j].unlockedAt;
    sorted
  }

  /** The hook's state, the toasts it raised, and the user it serves. */
  class AchievementFeed {
    const userId: Option<UserId>
    var achievements: seq<Achievement>
    var loading: bool
    var notices: seq<Notice>

    constructor (userId: Option<UserId>)
      ensures this.userId == userId && achievements == [] && loading && notices == []
    {
      this.userId := userId;
      achievements := [];
      loading := true;
      notices := [];
    }

    /** `fetchAchievements`: without a user nothing happens and loading
      stays on; otherwise the list is replaced by the user's rows (none for
      a null answer), or kept with an error toast, and loading ends. */
    method FetchAchievements(table: seq<Achievement>, reply: QueryReply)
      modifies this`achievements, this`loading, this`notices
      ensures !HasUser(userId) ==>
        achievements == old(achievements) && loading == old(loading) && notices == old(notices)
      ensures HasUser(userId) ==> !loading
      ensures HasUser(userId) && reply == Rows ==>
        achievements == SelectAchievements(table, userId.value) && notices == old(notices)
      ensures HasUser(userId) && reply == NullData ==> achievements == [] && notices == old(notices)
      ensures HasUser(userId) && reply == QueryFailed ==>
        achievements == old(achievements) && notices == old(notices) + [LoadFailed]
    {
      if !HasUser(userId) {
        return;
      }
      match reply {
        case Rows => achievements := SelectAchievements(table, userId.value);
        case NullData => achievements := [];
        case QueryFailed => notices := notices + [LoadFailed];
      }
      loading := false;
    }

    /** The insert notification: the new row goes in front, with no check
      for an id already present, and one "Achievement Unlocked" toast names
      it. */
    method OnInsert(a: Achievement)
      modifies this`achievements, this`notices
      ensures achievements == [a] + old(achievements)
      ensures notices == old(notices) + [AchievementUnlocked(a.name, a.description)]
    {
      achievements := [a] + achievements;
      notices := notices + [AchievementUnlocked(a.name, a.description)];
    }
  }

  /** The hook's toasts: the load failure is destructive, an unlock toast
      is plain. */
  lemma FeedToastVariants(a: Achievement)
    ensures LoadFailed.Severity() == Destructive
    ensures AchievementUnlocked(a.name, a.description).Severity() == Plain
  {
  }

  /** Two insert notifications for the same row leave two copies of it in
      the list and raise two toasts. */
  method DuplicateInsert(userId: Option<UserId>, a: Achievement) returns (shown: seq<Achievement>, toasts: nat)
    ensures shown == [a, a] && toasts == 2
  {
    var feed := new AchievementFeed(userId);
    feed.OnInsert(a);
    feed.OnInsert(a);
    shown := feed.achievements;
    toasts := |feed.notices|;
  }
}
